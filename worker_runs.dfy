/** Complete conversions run through the worker's state machine: the three
    processes of a GIF conversion and every signal it sends, the single
    process of a WebP conversion, and what a cancelled WebP conversion
    reports. Also how the worker's frame estimate relates to the engine's,
    and what happens to a progress line that arrives in two pieces. */
module WorkerRuns {
  import opened Options
  import opened Strings
  import opened Models
  import opened TextLines
  import opened WorkerLogic
  import opened WorkerMachine
  import Engine
  import opened EngineFacts

  lemma RoundWhole(n: int)
    ensures RoundHalfEven(n as real) == n
  {
  }

  /** The progress values the steps report: 5 % of the palette step rounds
      (half to even) to 0, 30 % of the optimisation step is 86. */
  lemma StepProgressValues()
    ensures WeightedEvent(Palette, 5.0) == Progress(0)
    ensures WeightedEvent(Palette, 100.0) == Progress(10)
    ensures WeightedEvent(Render, 0.0) == Progress(10)
    ensures WeightedEvent(Render, 100.0) == Progress(80)
    ensures WeightedEvent(Optimize, 30.0) == Progress(86)
    ensures WeightedEvent(Optimize, 100.0) == Progress(100)
  {
    WeightTable(Palette);
    WeightTable(Render);
    WeightTable(Optimize);
    assert WeightedProgress(Palette, 5.0) == 0.5;
    assert (0.5).Floor == 0;
    RoundWhole(10);
    RoundWhole(80);
    RoundWhole(86);
    RoundWhole(100);
  }

  /** The environment of a conversion where everything works. */
  function Smooth(dir: string): Env {
    Env(Some(dir), true, Launched)
  }

  /** A fresh worker converting to GIF, with a temporary directory, a palette
      that appears and processes that all start: the palette run comes first. */
  lemma GifRunStarts(s: ConverterSettings, dir: string, fps: Option<real>)
    requires !IsWebp(s)
    ensures var w1 := RunConversion(Initial(), s, Smooth(dir), fps);
      && w1.process == Some(QProc(s.ffmpegPath, PaletteArgs(s, PaletteFile(dir)), FfmpegRender, StepFinished, true, []))
      && w1.step == Palette && w1.tempDir == Some(dir) && w1.palFile == Some(PaletteFile(dir))
      && w1.events == [Progress(0)] && w1.frames == 0 && !w1.cancelled
  {
    StepProgressValues();
  }

  /** After the palette run exits with 0 the render starts with the palette. */
  lemma GifRunRenders(s: ConverterSettings, dir: string, fps: Option<real>)
    requires !IsWebp(s)
    ensures var w1 := RunConversion(Initial(), s, Smooth(dir), fps);
      var w2 := ProcessFinished(w1, s, Smooth(dir), 0, NormalExit);
      var start := if Truthy(s.totalDuration) then 10 else -1;
      && w2.process == Some(QProc(s.ffmpegPath, RenderArgs(s, PaletteFile(dir)), FfmpegRender, StepFinished, true, []))
      && w2.step == Render && w2.tempDir == Some(dir) && w2.palFile == Some(PaletteFile(dir))
      && w2.events == [Progress(0), Progress(10), Progress(start)] && w2.frames == 0 && !w2.cancelled
  {
    GifRunStarts(s, dir, fps);
    StepProgressValues();
  }

  /** After the render exits with 0 the optimiser runs on the output. */
  lemma GifRunOptimizes(s: ConverterSettings, dir: string, fps: Option<real>)
    requires !IsWebp(s)
    ensures var w1 := RunConversion(Initial(), s, Smooth(dir), fps);
      var w2 := ProcessFinished(w1, s, Smooth(dir), 0, NormalExit);
      var w3 := ProcessFinished(w2, s, Smooth(dir), 0, NormalExit);
      var start := if Truthy(s.totalDuration) then 10 else -1;
      && w3.process == Some(QProc(s.gifsiclePath, OptimizeArgs(s), GifsicleOptimize, StepFinished, true, []))
      && w3.step == Optimize && w3.tempDir == Some(dir)
      && w3.events == [Progress(0), Progress(10), Progress(start), Progress(80), Progress(86)]
      && w3.frames == 0 && !w3.cancelled
  {
    GifRunRenders(s, dir, fps);
    StepProgressValues();
    var w1 := RunConversion(Initial(), s, Smooth(dir), fps);
    var w2 := ProcessFinished(w1, s, Smooth(dir), 0, NormalExit);
    var next := Emit(w2.(timer := NoTimer, process := None), [WeightedEvent(Render, 100.0)]).(step := Optimize);
    assert ProcessFinished(w2, s, Smooth(dir), 0, NormalExit) == StartNextStep(next, s, Smooth(dir));
    assert StartNextStep(next, s, Smooth(dir)) == GifOptimization(next, s, Smooth(dir));
  }

  /** A whole GIF conversion: three processes, progress 0, 10, 10 (or the
      indeterminate -1 without a known duration), 80, 86, 100, 100, one
      success signal with no frame count (no output line was read), and the
      temporary directory removed last. */
  lemma GifConversionRun(s: ConverterSettings, dir: string, fps: Option<real>)
    requires !IsWebp(s)
    ensures var w1 := RunConversion(Initial(), s, Smooth(dir), fps);
      var w2 := ProcessFinished(w1, s, Smooth(dir), 0, NormalExit);
      var w3 := ProcessFinished(w2, s, Smooth(dir), 0, NormalExit);
      var w4 := ProcessFinished(w3, s, Smooth(dir), 0, NormalExit);
      var start := if Truthy(s.totalDuration) then 10 else -1;
      && w4.events == [Progress(0), Progress(10), Progress(start), Progress(80), Progress(86),
                       Progress(100), Progress(100), Done(Succeeded(s.outputFile, None)), TempCleanup(dir)]
      && w4.process.None? && w4.tempDir.None? && w4.palFile.None? && w4.step == Finished
  {
    GifRunOptimizes(s, dir, fps);
    StepProgressValues();
    var w1 := RunConversion(Initial(), s, Smooth(dir), fps);
    var w2 := ProcessFinished(w1, s, Smooth(dir), 0, NormalExit);
    var w3 := ProcessFinished(w2, s, Smooth(dir), 0, NormalExit);
    OptimizerExits(w3, s, Smooth(dir));
  }

  /** The optimiser's clean exit, not cancelled, finalises the conversion. */
  lemma OptimizerExits(w: WorkerState, s: ConverterSettings, env: Env)
    requires w.process.Some? && !w.cancelled && w.step == Optimize
    ensures ProcessFinished(w, s, env, 0, NormalExit)
      == Finalize(Emit(w.(timer := NoTimer, process := None), [WeightedEvent(Optimize, 100.0)]).(step := Finished), s)
  {
    var next := Emit(w.(timer := NoTimer, process := None), [WeightedEvent(Optimize, 100.0)]).(step := Finished);
    assert ProcessFinished(w, s, env, 0, NormalExit) == StartNextStep(next, s, env);
  }

  /** A WebP conversion: one ffmpeg run whose end is reported as success. */
  lemma WebpConversionRun(s: ConverterSettings, env: Env, fps: Option<real>)
    requires IsWebp(s) && env.launch == Launched
    ensures var w1 := RunConversion(Initial(), s, env, fps);
      var w2 := WebpFinish(w1, s);
      && w1.process == Some(QProc(s.ffmpegPath, WebpArgs(s), FfmpegRender, WebpFinished, true, []))
      && w1.events == [Progress(0)] && w1.estimate.None?
      && w2.events == [Progress(0), Progress(100), Done(Succeeded(s.outputFile, None))]
      && w2.step == Finished
  {
  }

  /** A WebP conversion cancelled while ffmpeg runs, when Qt reports the
      terminated ffmpeg as crashed: the crash reports the cancellation, and the
      finished signal that follows reports success as well, since the WebP
      handler checks neither the exit nor the cancellation. */
  lemma CancelledWebpReportsBoth(s: ConverterSettings, env: Env, fps: Option<real>)
    requires IsWebp(s) && env.launch == Launched
    ensures var w1 := RunConversion(Initial(), s, env, fps);
      var w2 := RequestCancellation(w1);
      var w3 := ErrorOccurred(ProcessStopped(w2), Crashed);
      var w4 := WebpFinish(w3, s);
      && w2.process.value.signals == [StopSignal.Terminate]
      && w4.events == [Progress(0), Progress(0), Done(Cancelled), Progress(100), Done(Succeeded(s.outputFile, None))]
  {
  }

  /** The same cancelled WebP conversion when ffmpeg handles the terminate
      request and exits normally, so no error is reported: the cancellation
      is never reported, and the run ends as a success. */
  lemma CancelledWebpNormalExit(s: ConverterSettings, env: Env, fps: Option<real>)
    requires IsWebp(s) && env.launch == Launched
    ensures var w1 := RunConversion(Initial(), s, env, fps);
      var w2 := RequestCancellation(w1);
      var w4 := WebpFinish(ProcessStopped(w2), s);
      && w2.cancelled && w2.process.value.signals == [StopSignal.Terminate]
      && w4.events == [Progress(0), Progress(100), Done(Succeeded(s.outputFile, None))]
      && w4.step == Finished
  {
  }

  /** The worker's frame estimate is the engine's estimate, or 0 where the
      engine has none. */
  lemma EstimateMatchesEngine(s: ConverterSettings, detectedFps: Option<real>)
    ensures var fps := if s.fps == -1 then detectedFps else Some(s.fps as real);
      Estimate(s, detectedFps) == match Engine.EstimateTotalFrames(s.totalDuration, fps)
        case None => 0
        case Some(n) => n
  {
  }

  /** A render's state just after it started with a frame estimate of `est`,
      for the line-piece lemmas. */
  function Rendering(est: nat): WorkerState {
    WorkerState(false, NoTimer, 0, Some(QProc("ffmpeg", [], FfmpegRender, StepFinished, true, [])),
                None, None, Render, "", Some(est), [])
  }

  lemma OneLineFold(s: ConverterSettings, step: Step, estimate: Option<int>, frames: int, t: string,
                    prefix: LogPrefix)
    requires t != "" && !StdoutLine(s, step, estimate, frames, t, prefix).aborted
    ensures var r := StdoutLine(s, step, estimate, frames, t, prefix);
      && StdoutLines(s, step, estimate, frames, [t], prefix) == r
      && StdoutLines(s, step, estimate, frames, [t, ""], prefix) == r
  {
    var r := StdoutLine(s, step, estimate, frames, t, prefix);
    assert [t][1..] == [];
    assert [t, ""][1..] == [""];
    assert r.emitted + [] == r.emitted;
    assert StdoutLines(s, step, estimate, r.frames, [""], prefix) == LineResult(r.frames, [], false) by {
      assert [""][1..] == [];
    }
  }

  /** A chunk holding one line, with or without a line break after it, on
      an empty buffer, has the effect of that line. */
  lemma ChunkOfOneLine(w: WorkerState, s: ConverterSettings, t: string)
    requires w.process.Some? && w.stdoutBuffer == "" && NoBreak(t) && t != ""
    requires !StdoutLine(s, w.step, w.estimate, w.frames, t, w.process.value.prefix).aborted
    ensures var r := StdoutLine(s, w.step, w.estimate, w.frames, t, w.process.value.prefix);
      && StdoutChunk(w, s, t) == w.(frames := r.frames, events := w.events + r.emitted)
      && StdoutChunk(w, s, t + "\n") == w.(frames := r.frames, events := w.events + r.emitted)
  {
    SplitNoBreak(t);
    SplitLineBreak(t);
    assert w.stdoutBuffer + t == t;
    assert w.stdoutBuffer + (t + "\n") == t + "\n";
    OneLineFold(s, w.step, w.estimate, w.frames, t, w.process.value.prefix);
  }

  lemma FrameTextNoBreak(pad: nat, n: nat)
    ensures NoBreak(FrameText(pad, n, ""))
    ensures 'o' !in FrameText(pad, n, "")
  {
    var t := FrameText(pad, n, "");
    var d := NatToString(n);
    forall i | 0 <= i < |t|
      ensures !IsBreak(t[i]) && t[i] != 'o'
    {
      if i < 6 {
        assert t[i] == "frame="[i];
      } else if i < 6 + pad {
        assert t[i] == Blanks(pad)[i - 6];
      } else {
        assert t[i] == d[i - 6 - pad];
      }
    }
  }

  /** A line too short for `frame=` reports no frame. */
  lemma ShortLineNoFrame(t: string)
    requires |t| < 6
    ensures Engine.Search(t, "frame=", true) == None
  {
    forall p | 0 <= p <= |t|
      ensures Engine.MatchAt(t, p, "frame=", true).None?
    {
      Engine.MatchKeyPastEnd(t, p, "frame=", 0, true);
    }
    Engine.SearchIsLeftmost(t, "frame=", true);
  }

  lemma FrameTextAppendDigit(pad: nat, n: nat, k: nat)
    requires 1 <= n && k < 10
    ensures FrameText(pad, 10 * n + k, "") == FrameText(pad, n, "") + [DigitChar(k)]
    ensures FrameText(pad, 10 * n + k, "\n") == FrameText(pad, n, "") + ([DigitChar(k)] + "\n")
  {
    assert NatToString(10 * n + k) == NatToString(n) + [DigitChar(k)];
  }

  /** Without a duration and with a zero estimate, a line reporting a frame
      raises the count to it and shows the indeterminate bar; a line without
      one does nothing. */
  lemma ZeroEstimateLine(s: ConverterSettings, step: Step, frames: int, t: string)
    requires !Truthy(s.totalDuration)
    ensures var fm := Engine.Search(t, "frame=", true);
      var r := StdoutLine(s, step, Some(0), frames, t, FfmpegRender);
      && !r.aborted
      && (fm.None? ==> r.frames == frames)
      && (fm.Some? ==> r.frames == if fm.value > frames then fm.value else frames)
  {
  }

  /** With a known duration, a line without `out_time_ms=` reports nothing and
      only raises the count to the frame value it holds, whatever the estimate. */
  lemma DurationFrameLine(s: ConverterSettings, step: Step, estimate: Option<int>, frames: int, t: string)
    requires Truthy(s.totalDuration) && 'o' !in t
    ensures var fm := Engine.Search(t, "frame=", true);
      var r := StdoutLine(s, step, estimate, frames, t, FfmpegRender);
      && !r.aborted && r.emitted == []
      && (fm.None? ==> r.frames == frames)
      && (fm.Some? ==> r.frames == if fm.value > frames then fm.value else frames)
  {
    SearchWithoutKeyStart(t, "out_time_ms=", false);
  }

  /** The fields a read during the render leaves as they were. */
  ghost predicate StillRendering(w: WorkerState, est: nat) {
    w.process == Rendering(est).process && w.stdoutBuffer == "" && w.step == Render && w.estimate == Some(est)
  }

  lemma FirstRead(s: ConverterSettings, est: nat, pad: nat, n: nat)
    requires Truthy(s.totalDuration) && 1 <= n
    ensures var w1 := StdoutChunk(Rendering(est), s, FrameText(pad, n, ""));
      w1.frames == n && w1.events == [] && StillRendering(w1, est)
  {
    var first := FrameText(pad, n, "");
    FrameLineRoundTrip(pad, n, "");
    assert Engine.Search(first, "frame=", true) == Some(n);
    FrameTextNoBreak(pad, n);
    DurationFrameLine(s, Render, Some(est), 0, first);
    ChunkOfOneLine(Rendering(est), s, first);
  }

  lemma SecondRead(w: WorkerState, s: ConverterSettings, est: nat, k: nat)
    requires Truthy(s.totalDuration) && k < 10 && StillRendering(w, est)
    ensures StdoutChunk(w, s, [DigitChar(k)] + "\n").frames == w.frames
  {
    var digit := [DigitChar(k)];
    ShortLineNoFrame(digit);
    assert 'o' !in digit;
    DurationFrameLine(s, Render, Some(est), w.frames, digit);
    ChunkOfOneLine(w, s, digit);
  }

  lemma WholeRead(s: ConverterSettings, est: nat, pad: nat, v: nat)
    requires Truthy(s.totalDuration) && 1 <= v
    ensures StdoutChunk(Rendering(est), s, FrameText(pad, v, "") + "\n").frames == v
  {
    var whole := FrameText(pad, v, "");
    FrameLineRoundTrip(pad, v, "");
    FrameTextNoBreak(pad, v);
    DurationFrameLine(s, Render, Some(est), 0, whole);
    ChunkOfOneLine(Rendering(est), s, whole);
  }

  /** The worker keeps no partial line: a `frame=` line that arrives in two
      reads, cut before its last digit, is read as the frame number without
      that digit, while arriving whole it is read in full. Such lines reach
      the worker's stdout when the duration is known, since only then does
      the render ask ffmpeg for `-progress pipe:1`. */
  lemma SplitFrameLineUndercounts(s: ConverterSettings, est: nat, pad: nat, n: nat, k: nat)
    requires Truthy(s.totalDuration) && 1 <= n && k < 10
    ensures var first := FrameText(pad, n, "");
      var second := [DigitChar(k)] + "\n";
      && first + second == FrameText(pad, 10 * n + k, "\n")
      && StdoutChunk(StdoutChunk(Rendering(est), s, first), s, second).frames == n
      && StdoutChunk(Rendering(est), s, first + second).frames == 10 * n + k
  {
    var first := FrameText(pad, n, "");
    var second := [DigitChar(k)] + "\n";
    FrameTextAppendDigit(pad, n, k);
    FirstRead(s, est, pad, n);
    var w1 := StdoutChunk(Rendering(est), s, first);
    SecondRead(w1, s, est, k);
    WholeRead(s, est, pad, 10 * n + k);
    assert FrameText(pad, 10 * n + k, "") + "\n" == first + second;
  }

  /** A line followed by one line break splits into the line and an empty piece. */
  lemma SplitLineBreak(t: string)
    requires NoBreak(t)
    ensures Split(t + "\n") == [t, ""]
  {
    var s := t + "\n";
    NextBreakIs(s, 0, |t|);
    RunEndIs(s, |t|, |t| + 1);
    SplitAtRun(s);
    assert s[..|t|] == t;
    assert s[|t| + 1..] == "";
    SplitNoBreak("");
  }
}
