/** What the conversion worker promises across its slots: an invariant kept
    by every input, at most one finished signal per input with the temporary
    files gone whenever it is sent, what a cancellation leads to, and the
    complete runs of a GIF and a WebP conversion. */
module WorkerProperties {
  import opened Options
  import opened Strings
  import opened Models
  import opened TextLines
  import opened WorkerLogic
  import opened WorkerMachine
  import Engine

  /** The worker's invariant: the frame count is never negative, a palette
      file lies in the temporary directory, no progress value exceeds 100,
      and a non-zero frame estimate exists only for a known duration. */
  ghost predicate Valid(w: WorkerState, s: ConverterSettings) {
    && w.frames >= 0
    && (w.palFile.Some? ==> w.tempDir.Some? && w.palFile.value == PaletteFile(w.tempDir.value))
    && ProgressCapped(w.events)
    && (w.estimate.Some? && w.estimate.value != 0 ==> Truthy(s.totalDuration))
  }

  lemma ValidEmit(w: WorkerState, s: ConverterSettings, e: seq<Event>)
    requires Valid(w, s) && ProgressCapped(e)
    ensures Valid(Emit(w, e), s)
  {
    CappedConcat(w.events, e);
  }

  lemma ValidWeighted(w: WorkerState, s: ConverterSettings, step: Step, p: real)
    requires Valid(w, s) && p <= 100.0
    ensures Valid(Emit(w, [WeightedEvent(step, p)]), s)
  {
    WeightedEventBounds(step, p);
    ValidEmit(w, s, [WeightedEvent(step, p)]);
  }

  lemma ValidCleanup(w: WorkerState, s: ConverterSettings)
    requires Valid(w, s)
    ensures Valid(Cleanup(w), s)
  {
    ValidEmit(w, s, if w.tempDir.Some? then [TempCleanup(w.tempDir.value)] else []);
  }

  lemma ValidHandleError(w: WorkerState, s: ConverterSettings, f: Failure)
    requires Valid(w, s)
    ensures Valid(HandleError(w, f), s)
  {
    ValidEmit(w, s, [Progress(0), Done(Failed(f))]);
    ValidCleanup(Emit(w, [Progress(0), Done(Failed(f))]), s);
  }

  lemma ValidHandleCancellation(w: WorkerState, s: ConverterSettings)
    requires Valid(w, s)
    ensures Valid(HandleCancellation(w), s)
  {
    ValidEmit(w, s, [Progress(0), Done(Cancelled)]);
    ValidCleanup(Emit(w, [Progress(0), Done(Cancelled)]), s);
  }

  lemma ValidRunQProcess(w: WorkerState, s: ConverterSettings, program: string, args: seq<string>,
                         prefix: LogPrefix, launch: Launch)
    requires Valid(w, s)
    ensures Valid(RunQProcess(w, program, args, prefix, launch), s)
  {
    if w.cancelled {
      ValidHandleCancellation(w, s);
    } else if launch.LaunchFailed? {
      var p := QProc(program, args, prefix, StepFinished, false, []);
      ValidHandleError(w.(process := Some(p)), s, StartFailed(prefix, launch.error));
    }
  }

  lemma ValidPaletteGeneration(w: WorkerState, s: ConverterSettings, env: Env)
    requires Valid(w, s)
    ensures Valid(PaletteGeneration(w, s, env), s)
  {
    var w1 := Emit(w.(step := Palette), [WeightedEvent(Palette, 5.0)]);
    ValidWeighted(w.(step := Palette), s, Palette, 5.0);
    match env.tempDir {
      case None => ValidHandleError(w1, s, TempDirFailed);
      case Some(dir) =>
        ValidRunQProcess(w1.(tempDir := Some(dir), palFile := Some(PaletteFile(dir))), s, s.ffmpegPath,
                         PaletteArgs(s, PaletteFile(dir)), FfmpegRender, env.launch);
    }
  }

  lemma ValidGifRendering(w: WorkerState, s: ConverterSettings, env: Env)
    requires Valid(w, s)
    ensures Valid(GifRendering(w, s, env), s)
  {
    if w.palFile.None? || !env.paletteExists {
      ValidHandleError(w, s, PaletteMissing);
    } else {
      var w0 := w.(step := Render, frames := 0);
      if Truthy(s.totalDuration) {
        ValidWeighted(w0, s, Render, 0.0);
      } else {
        ValidEmit(w0, s, [Progress(-1)]);
      }
      var start := if Truthy(s.totalDuration) then [WeightedEvent(Render, 0.0)] else [Progress(-1)];
      ValidRunQProcess(Emit(w0, start), s, s.ffmpegPath, RenderArgs(s, w.palFile.value), FfmpegRender, env.launch);
    }
  }

  lemma ValidFinalize(w: WorkerState, s: ConverterSettings)
    requires Valid(w, s)
    ensures Valid(Finalize(w, s), s)
  {
    var frames := if w.frames != 0 then Some(w.frames) else None;
    var e := [Progress(100), Done(Succeeded(s.outputFile, frames))];
    ValidEmit(w.(step := Finished), s, e);
    ValidCleanup(Emit(w.(step := Finished), e), s);
  }

  lemma ValidGifOptimization(w: WorkerState, s: ConverterSettings, env: Env)
    requires Valid(w, s)
    ensures Valid(GifOptimization(w, s, env), s)
  {
    if IsWebp(s) {
      var w1 := w.(step := Finished);
      if w1.cancelled {
        ValidHandleCancellation(w1, s);
      } else {
        ValidFinalize(w1, s);
      }
    } else {
      ValidWeighted(w.(step := Optimize), s, Optimize, 30.0);
      ValidRunQProcess(Emit(w.(step := Optimize), [WeightedEvent(Optimize, 30.0)]), s, s.gifsiclePath,
                       OptimizeArgs(s), GifsicleOptimize, env.launch);
    }
  }

  lemma ValidStartNextStep(w: WorkerState, s: ConverterSettings, env: Env)
    requires Valid(w, s)
    ensures Valid(StartNextStep(w, s, env), s)
  {
    if w.cancelled {
      ValidHandleCancellation(w, s);
    } else {
      match w.step
      case Idle =>
      case Palette => ValidPaletteGeneration(w, s, env);
      case Render => ValidGifRendering(w, s, env);
      case Optimize => ValidGifOptimization(w, s, env);
      case Finished => ValidFinalize(w, s);
    }
  }

  lemma ValidProcessFinished(w: WorkerState, s: ConverterSettings, env: Env, code: int, status: ExitStatus)
    requires Valid(w, s)
    ensures Valid(ProcessFinished(w, s, env, code, status), s)
  {
    var w0 := w.(timer := NoTimer);
    if w0.process.Some? {
      var w1 := w0.(process := None);
      if w1.cancelled {
        ValidHandleCancellation(w1, s);
      } else if status == CrashExit || code != 0 {
        ValidHandleError(w1, s, ExitedWithCode(w0.process.value.prefix, code));
      } else {
        match w1.step {
          case Palette =>
            ValidWeighted(w1, s, Palette, 100.0);
            ValidStartNextStep(Emit(w1, [WeightedEvent(Palette, 100.0)]).(step := Render), s, env);
          case Render =>
            ValidWeighted(w1, s, Render, 100.0);
            ValidStartNextStep(Emit(w1, [WeightedEvent(Render, 100.0)]).(step := Optimize), s, env);
          case Optimize =>
            ValidWeighted(w1, s, Optimize, 100.0);
            ValidStartNextStep(Emit(w1, [WeightedEvent(Optimize, 100.0)]).(step := Finished), s, env);
          case _ =>
            ValidStartNextStep(w1, s, env);
        }
      }
    }
  }

  lemma ValidStdoutChunk(w: WorkerState, s: ConverterSettings, chunk: string)
    requires Valid(w, s)
    ensures Valid(StdoutChunk(w, s, chunk), s)
  {
    if w.process.Some? {
      var data := w.stdoutBuffer + chunk;
      StdoutLinesEffect(s, w.step, w.estimate, w.frames, Split(data), w.process.value.prefix);
      var r := StdoutLines(s, w.step, w.estimate, w.frames, Split(data), w.process.value.prefix);
      CappedConcat(w.events, r.emitted);
    }
  }

  lemma StderrLogsCapped(prefix: LogPrefix, lines: seq<string>)
    ensures ProgressCapped(StderrLogs(prefix, lines))
  {
    var logs := StderrLogs(prefix, lines);
    StderrLogsExact(prefix, lines);
    forall i | 0 <= i < |logs|
      ensures logs[i].StderrLog?
    {
      assert logs[i] in logs;
    }
  }

  lemma ValidRunConversion(w: WorkerState, s: ConverterSettings, env: Env, fps: Option<real>)
    requires Valid(w, s)
    ensures Valid(RunConversion(w, s, env, fps), s)
  {
    var w1 := w.(cancelled := false, frames := 0);
    if IsWebp(s) {
      ValidEmit(w1, s, [Progress(0)]);
      var p := QProc(s.ffmpegPath, WebpArgs(s), FfmpegRender, WebpFinished, false, []);
      if env.launch.LaunchFailed? {
        ValidHandleError(Emit(w1, [Progress(0)]).(process := Some(p)), s, StartFailed(FfmpegRender, env.launch.error));
      }
    } else {
      ValidStartNextStep(w1.(step := Palette), s, env);
    }
  }

  /** Every input keeps the invariant. */
  lemma ValidPreserved(w: WorkerState, s: ConverterSettings, i: Input)
    requires Valid(w, s)
    ensures Valid(Handle(w, s, i), s)
  {
    match i
    case Run(env, fps) => ValidRunConversion(w, s, env, fps);
    case Cancel =>
    case KillTimerFires =>
    case Stops =>
    case StepProcessFinished(env, code, status) => ValidProcessFinished(w, s, env, code, status);
    case WebpProcessFinished =>
      var w1 := w.(step := Finished);
      var frames := if w1.frames != 0 then Some(w1.frames) else None;
      var e := [Progress(100), Done(Succeeded(s.outputFile, frames))];
      ValidEmit(w1, s, e);
      ValidCleanup(Emit(w1, e), s);
    case ProcessFails(error) =>
      if w.cancelled && error == Crashed {
        ValidHandleCancellation(w, s);
      } else {
        ValidHandleError(w, s, ProcessFailed(error));
      }
    case StdoutData(chunk) => ValidStdoutChunk(w, s, chunk);
    case StderrData(chunk) =>
      if w.process.Some? {
        StderrLogsCapped(w.process.value.prefix, Split(chunk));
        ValidEmit(w, s, StderrLogs(w.process.value.prefix, Split(chunk)));
      }
  }

  lemma InitialValid(s: ConverterSettings)
    ensures Valid(Initial(), s)
  {
  }

  // ---------------------------------------------------------------------------
  // One finished signal at most, and the temporary files gone when it is sent

  function Dones(events: seq<Event>): nat {
    if events == [] then 0 else Dones(AllButLast(events)) + (if Last(events).Done? then 1 else 0)
  }

  lemma {:induction false} DonesAppend(a: seq<Event>, b: seq<Event>)
    ensures Dones(a + b) == Dones(a) + Dones(b)
    decreases |b|
  {
    if b != [] {
      assert AllButLast(a + b) == a + AllButLast(b);
      assert Last(a + b) == Last(b);
      DonesAppend(a, AllButLast(b));
    } else {
      assert a + b == a;
    }
  }

  lemma {:induction false} NoDones(events: seq<Event>)
    requires forall i :: 0 <= i < |events| ==> !events[i].Done?
    ensures Dones(events) == 0
    decreases |events|
  {
    if events != [] {
      NoDones(AllButLast(events));
    }
  }

  /** The signals of `w2` extend those of `w` without a finished signal. */
  ghost predicate Silent(w: WorkerState, w2: WorkerState) {
    w.events <= w2.events && Dones(w2.events[|w.events|..]) == 0
  }

  /** The signals of `w2` extend those of `w` by at most one finished signal,
      and when there is one the temporary directory and palette are gone. */
  ghost predicate SingleEnding(w: WorkerState, w2: WorkerState) {
    && w.events <= w2.events
    && Dones(w2.events[|w.events|..]) <= 1
    && (Dones(w2.events[|w.events|..]) == 1 ==> w2.tempDir.None? && w2.palFile.None?)
  }

  lemma SilentEmit(w: WorkerState, e: seq<Event>)
    requires Dones(e) == 0
    ensures Silent(w, Emit(w, e))
  {
    assert Emit(w, e).events[|w.events|..] == e;
  }

  lemma ComposeEnding(w: WorkerState, w1: WorkerState, w2: WorkerState)
    requires Silent(w, w1) && SingleEnding(w1, w2)
    ensures SingleEnding(w, w2)
  {
    var n, n1 := |w.events|, |w1.events|;
    assert w2.events[n..] == w1.events[n..] + w2.events[n1..];
    DonesAppend(w1.events[n..], w2.events[n1..]);
  }

  /** Ending a conversion, whichever way, sends exactly one finished signal
      and removes the temporary files. */
  lemma EndingOnce(w: WorkerState, o: Outcome)
    ensures var w2 := Cleanup(Emit(w, [Progress(0), Done(o)]));
      SingleEnding(w, w2) && Dones(w2.events[|w.events|..]) == 1
    ensures var w2 := Cleanup(Emit(w, [Progress(100), Done(o)]));
      SingleEnding(w, w2) && Dones(w2.events[|w.events|..]) == 1
  {
    var c := if w.tempDir.Some? then [TempCleanup(w.tempDir.value)] else [];
    assert Dones(c) == 0;
    forall p | p == 0 || p == 100
      ensures var w2 := Cleanup(Emit(w, [Progress(p), Done(o)]));
        SingleEnding(w, w2) && Dones(w2.events[|w.events|..]) == 1
    {
      var w2 := Cleanup(Emit(w, [Progress(p), Done(o)]));
      assert w2.events[|w.events|..] == [Progress(p), Done(o)] + c;
      DonesAppend([Progress(p), Done(o)], c);
      assert Dones([Progress(p), Done(o)]) == 1 by {
        assert AllButLast([Progress(p), Done(o)]) == [Progress(p)];
        assert AllButLast([Progress(p)]) == [];
      }
    }
  }

  lemma EndingRunQProcess(w: WorkerState, program: string, args: seq<string>, prefix: LogPrefix, launch: Launch)
    ensures SingleEnding(w, RunQProcess(w, program, args, prefix, launch))
  {
    if w.cancelled {
      EndingOnce(w, Cancelled);
    } else if launch.LaunchFailed? {
      var p := QProc(program, args, prefix, StepFinished, false, []);
      EndingOnce(w.(process := Some(p)), Failed(StartFailed(prefix, launch.error)));
    } else {
      SilentEmit(w, []);
    }
  }

  lemma EndingPaletteGeneration(w: WorkerState, s: ConverterSettings, env: Env)
    ensures SingleEnding(w, PaletteGeneration(w, s, env))
  {
    var w1 := Emit(w.(step := Palette), [WeightedEvent(Palette, 5.0)]);
    SilentEmit(w.(step := Palette), [WeightedEvent(Palette, 5.0)]);
    match env.tempDir {
      case None =>
        EndingOnce(w1, Failed(TempDirFailed));
        ComposeEnding(w, w1, PaletteGeneration(w, s, env));
      case Some(dir) =>
        var w2 := w1.(tempDir := Some(dir), palFile := Some(PaletteFile(dir)));
        EndingRunQProcess(w2, s.ffmpegPath, PaletteArgs(s, PaletteFile(dir)), FfmpegRender, env.launch);
        ComposeEnding(w, w2, PaletteGeneration(w, s, env));
    }
  }

  lemma EndingGifRendering(w: WorkerState, s: ConverterSettings, env: Env)
    ensures SingleEnding(w, GifRendering(w, s, env))
  {
    if w.palFile.None? || !env.paletteExists {
      EndingOnce(w, Failed(PaletteMissing));
    } else {
      var start := if Truthy(s.totalDuration) then [WeightedEvent(Render, 0.0)] else [Progress(-1)];
      var w1 := Emit(w.(step := Render, frames := 0), start);
      SilentEmit(w.(step := Render, frames := 0), start);
      EndingRunQProcess(w1, s.ffmpegPath, RenderArgs(s, w.palFile.value), FfmpegRender, env.launch);
      ComposeEnding(w, w1, GifRendering(w, s, env));
    }
  }

  lemma EndingGifOptimization(w: WorkerState, s: ConverterSettings, env: Env)
    ensures SingleEnding(w, GifOptimization(w, s, env))
  {
    if IsWebp(s) {
      var w1 := w.(step := Finished);
      if w1.cancelled {
        EndingOnce(w1, Cancelled);
      } else {
        var frames := if w1.frames != 0 then Some(w1.frames) else None;
        EndingOnce(w1, Succeeded(s.outputFile, frames));
      }
    } else {
      var w1 := Emit(w.(step := Optimize), [WeightedEvent(Optimize, 30.0)]);
      SilentEmit(w.(step := Optimize), [WeightedEvent(Optimize, 30.0)]);
      EndingRunQProcess(w1, s.gifsiclePath, OptimizeArgs(s), GifsicleOptimize, env.launch);
      ComposeEnding(w, w1, GifOptimization(w, s, env));
    }
  }

  lemma EndingStartNextStep(w: WorkerState, s: ConverterSettings, env: Env)
    ensures SingleEnding(w, StartNextStep(w, s, env))
  {
    if w.cancelled {
      EndingOnce(w, Cancelled);
    } else {
      match w.step {
        case Idle => SilentEmit(w, []);
        case Palette => EndingPaletteGeneration(w, s, env);
        case Render => EndingGifRendering(w, s, env);
        case Optimize => EndingGifOptimization(w, s, env);
        case Finished =>
          var frames := if w.frames != 0 then Some(w.frames) else None;
          EndingOnce(w.(step := Finished), Succeeded(s.outputFile, frames));
      }
    }
  }

  lemma EndingProcessFinished(w: WorkerState, s: ConverterSettings, env: Env, code: int, status: ExitStatus)
    ensures SingleEnding(w, ProcessFinished(w, s, env, code, status))
  {
    var w0 := w.(timer := NoTimer);
    if w0.process.None? {
      SilentEmit(w, []);
    } else {
      var w1 := w0.(process := None);
      if w1.cancelled {
        EndingOnce(w1, Cancelled);
      } else if status == CrashExit || code != 0 {
        EndingOnce(w1, Failed(ExitedWithCode(w0.process.value.prefix, code)));
      } else {
        var w2 := match w1.step
          case Palette => Emit(w1, [WeightedEvent(Palette, 100.0)]).(step := Render)
          case Render => Emit(w1, [WeightedEvent(Render, 100.0)]).(step := Optimize)
          case Optimize => Emit(w1, [WeightedEvent(Optimize, 100.0)]).(step := Finished)
          case _ => w1;
        var e := if w1.step.Palette? || w1.step.Render? || w1.step.Optimize? then [WeightedEvent(w1.step, 100.0)] else [];
        assert w2.events == w1.events + e;
        SilentEmit(w1, e);
        EndingStartNextStep(w2, s, env);
        ComposeEnding(w, w2, ProcessFinished(w, s, env, code, status));
      }
    }
  }

  lemma EndingStdoutChunk(w: WorkerState, s: ConverterSettings, chunk: string)
    ensures Silent(w, StdoutChunk(w, s, chunk))
  {
    if w.process.None? {
      SilentEmit(w, []);
    } else {
      var r := StdoutLines(s, w.step, w.estimate, w.frames, Split(w.stdoutBuffer + chunk), w.process.value.prefix);
      StdoutLinesEffect(s, w.step, w.estimate, w.frames, Split(w.stdoutBuffer + chunk), w.process.value.prefix);
      NoDones(r.emitted);
      SilentEmit(w, r.emitted);
    }
  }

  /** Whatever happens, the worker sends at most one finished signal for it,
      only appends to what it has sent, and has removed its temporary files
      whenever it sends one. */
  lemma SingleEndingPerInput(w: WorkerState, s: ConverterSettings, i: Input)
    ensures SingleEnding(w, Handle(w, s, i))
  {
    match i
    case Run(env, fps) => EndingRunConversion(w, s, env, fps);
    case Cancel => SilentEmit(w, []);
    case KillTimerFires => SilentEmit(w, []);
    case Stops => SilentEmit(w, []);
    case StepProcessFinished(env, code, status) => EndingProcessFinished(w, s, env, code, status);
    case WebpProcessFinished => EndingWebpFinish(w, s);
    case ProcessFails(error) => EndingErrorOccurred(w, error);
    case StdoutData(chunk) => EndingStdoutChunk(w, s, chunk);
    case StderrData(chunk) => EndingStderrChunk(w, chunk);
  }

  lemma EndingRunConversion(w: WorkerState, s: ConverterSettings, env: Env, fps: Option<real>)
    ensures SingleEnding(w, RunConversion(w, s, env, fps))
  {
    var w1 := w.(cancelled := false, frames := 0);
    if IsWebp(s) {
      EndingRunWebp(w, w1, s, env.launch);
    } else {
      EndingStartNextStep(w1.(step := Palette), s, env);
    }
  }

  lemma EndingRunWebp(w: WorkerState, w1: WorkerState, s: ConverterSettings, launch: Launch)
    requires w1 == w.(cancelled := false, frames := 0)
    ensures SingleEnding(w, RunWebp(w1, s, launch))
  {
    SilentEmit(w1, [Progress(0)]);
    var p := QProc(s.ffmpegPath, WebpArgs(s), FfmpegRender, WebpFinished, false, []);
    if launch.LaunchFailed? {
      var w2 := Emit(w1, [Progress(0)]).(process := Some(p));
      EndingOnce(w2, Failed(StartFailed(FfmpegRender, launch.error)));
      ComposeEnding(w, w2, RunWebp(w1, s, launch));
    } else {
      SilentEmit(Emit(w1, [Progress(0)]), []);
      ComposeEnding(w, Emit(w1, [Progress(0)]), RunWebp(w1, s, launch));
    }
  }

  lemma EndingWebpFinish(w: WorkerState, s: ConverterSettings)
    ensures SingleEnding(w, WebpFinish(w, s))
  {
    var frames := if w.frames != 0 then Some(w.frames) else None;
    EndingOnce(w.(step := Finished), Succeeded(s.outputFile, frames));
  }

  lemma EndingErrorOccurred(w: WorkerState, error: ProcessError)
    ensures SingleEnding(w, ErrorOccurred(w, error))
  {
    if w.cancelled && error == Crashed {
      EndingOnce(w, Cancelled);
    } else {
      EndingOnce(w, Failed(ProcessFailed(error)));
    }
  }

  lemma EndingStderrChunk(w: WorkerState, chunk: string)
    ensures Silent(w, StderrChunk(w, chunk))
  {
    if w.process.Some? {
      var logs := StderrLogs(w.process.value.prefix, Split(chunk));
      StderrLogsExact(w.process.value.prefix, Split(chunk));
      forall k | 0 <= k < |logs|
        ensures !logs[k].Done?
      {
        assert logs[k] in logs;
      }
      NoDones(logs);
      SilentEmit(w, logs);
    } else {
      SilentEmit(w, []);
    }
  }

  // ---------------------------------------------------------------------------
  // Cancellation

  /** Once cancellation is requested and no process runs, nothing but a new
      conversion starts a process again: every step checks the flag first. */
  lemma CancelledStartsNothing(w: WorkerState, s: ConverterSettings, i: Input)
    requires w.cancelled && !Running(w) && !i.Run?
    ensures !Running(Handle(w, s, i))
    ensures Handle(w, s, i).cancelled
  {
    match i
    case StepProcessFinished(env, code, status) =>
      if w.process.Some? {
        assert ProcessFinished(w, s, env, code, status) == HandleCancellation(w.(timer := NoTimer, process := None));
      }
    case _ =>
  }

  /** A step-finished notification after a cancellation request ends the
      conversion as cancelled, whatever the exit code. */
  lemma CancelledFinishIsCancellation(w: WorkerState, s: ConverterSettings, env: Env, code: int, status: ExitStatus)
    requires w.cancelled && w.process.Some?
    ensures var w2 := ProcessFinished(w, s, env, code, status);
      && w2.events[|w.events|..] == [Progress(0), Done(Cancelled)]
                                     + (if w.tempDir.Some? then [TempCleanup(w.tempDir.value)] else [])
      && w2.process.None? && w2.tempDir.None? && w2.step == Idle && w2.timer == NoTimer
  {
    var w2 := ProcessFinished(w, s, env, code, status);
    assert w2 == HandleCancellation(w.(timer := NoTimer, process := None));
  }

  // ---------------------------------------------------------------------------
  // The error and skip branches

  /** A process that crashes or exits with a non-zero code, without a
      cancellation, ends the conversion with the exit-code error: progress 0,
      one failed finish naming the process's prefix and the code, cleanup,
      step idle, and the process released. */
  lemma FailedExitIsError(w: WorkerState, s: ConverterSettings, env: Env, code: int, status: ExitStatus)
    requires w.process.Some? && !w.cancelled && (status == CrashExit || code != 0)
    ensures var w2 := ProcessFinished(w, s, env, code, status);
      && w2.events[|w.events|..]
           == [Progress(0), Done(Failed(ExitedWithCode(w.process.value.prefix, code)))]
              + (if w.tempDir.Some? then [TempCleanup(w.tempDir.value)] else [])
      && w.events <= w2.events
      && w2.process.None? && w2.timer == NoTimer && w2.tempDir.None? && w2.palFile.None?
      && w2.step == Idle && w2.frames == w.frames
  {
    var w2 := ProcessFinished(w, s, env, code, status);
    assert w2 == HandleError(w.(timer := NoTimer, process := None), ExitedWithCode(w.process.value.prefix, code));
  }

  /** Rendering without a palette file, or with one that does not exist,
      fails with the missing-palette error and starts no process. */
  lemma MissingPaletteIsError(w: WorkerState, s: ConverterSettings, env: Env)
    requires w.palFile.None? || !env.paletteExists
    ensures var w2 := GifRendering(w, s, env);
      && w2.events[|w.events|..]
           == [Progress(0), Done(Failed(PaletteMissing))]
              + (if w.tempDir.Some? then [TempCleanup(w.tempDir.value)] else [])
      && w.events <= w2.events
      && w2.process == w.process && w2.tempDir.None? && w2.palFile.None?
      && w2.step == Idle && w2.frames == w.frames
  {
  }

  /** For a `.webp` output the optimisation step starts no process and
      reports no optimisation progress: it finalises at once (or reports the
      cancellation when one was requested). */
  lemma WebpSkipsOptimizer(w: WorkerState, s: ConverterSettings, env: Env)
    requires IsWebp(s)
    ensures var w2 := GifOptimization(w, s, env);
      var c := if w.tempDir.Some? then [TempCleanup(w.tempDir.value)] else [];
      var frames := if w.frames != 0 then Some(w.frames) else None;
      && w.events <= w2.events
      && w2.process == w.process && w2.tempDir.None? && w2.palFile.None?
      && (!w.cancelled ==>
            w2.events[|w.events|..] == [Progress(100), Done(Succeeded(s.outputFile, frames))] + c
            && w2.step == Finished)
      && (w.cancelled ==> w2.events[|w.events|..] == [Progress(0), Done(Cancelled)] + c && w2.step == Idle)
  {
    var w1 := w.(step := Finished);
    assert GifOptimization(w, s, env) == StartNextStep(w1, s, env);
  }

  /** Cancelling a running process first asks it to terminate; if it still
      runs when the kill timer fires it is killed; a second request changes
      nothing. */
  lemma CancelEscalates(w: WorkerState)
    requires !w.cancelled && Running(w)
    ensures var w1 := RequestCancellation(w);
      && w1.cancelled && w1.timer == Armed
      && w1.process.value.signals == w.process.value.signals + [StopSignal.Terminate]
      && RequestCancellation(w1) == w1
      && KillTimerTimeout(w1).process.value.signals
           == w.process.value.signals + [StopSignal.Terminate, StopSignal.Kill]
      && KillTimerTimeout(ProcessStopped(w1)).process.value.signals
           == w.process.value.signals + [StopSignal.Terminate]
  {
    var w1 := RequestCancellation(w);
    assert Running(w1);
    assert w1.process.value.signals + [StopSignal.Kill]
        == w.process.value.signals + [StopSignal.Terminate, StopSignal.Kill];
  }
}
