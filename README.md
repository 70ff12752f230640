# GifMaker, modelled in Dafny

GifMaker is a desktop converter from video to animated GIF or WebP. It drives
three external tools:

- `ffmpeg` builds a palette and renders the animation.
- `gifsicle` optimises the GIF.
- `ffprobe` reads the source's duration and frame rate.

This project models the converter's core and proves properties of the model:

- the command-line plans of the engine (`engine.py`);
- the line-buffering process wrapper (`process_runner.py`);
- the background conversion worker (`worker.py`), as a state machine over its fields, with a class whose methods follow it field by field;
- the helpers in `utils.py`: dependency lookup, output-path validation, the ffprobe timeout, the frame-rate parse;
- the decisions of the window (`ui.py`): the wheel-driven integer box, the start checks, the option widgets that follow the output suffix, and the progress bar's mode.

Modules, one per file:

| file | module | what it holds |
|---|---|---|
| option.dfy | Options | `Option` |
| strings.dfy | Strings | ASCII lower-casing, `strip()`, `int()` on text, `str()` of an integer, `split` on one character |
| lines.dfy | TextLines | `re.split(r"[\r\n]+", …)` and the partial-line lemmas |
| models.dfy | Models | the job, settings, tool and plan records; truncation `int(float)` |
| engine.dfy, engine_facts.dfy | Engine, EngineFacts | the plan builders and the progress-line parser; the lemmas about them |
| process_runner.dfy | Runner | class `ProcessRunner` |
| worker_logic.dfy | WorkerLogic | steps, weights, the worker's own argument lists, what one stdout line does |
| worker_machine.dfy | WorkerMachine | the worker as a record and one function per slot |
| worker_properties.dfy, worker_runs.dfy | WorkerProperties, WorkerRuns | invariants, the single-ending property, cancellation, complete runs |
| worker.dfy | Conversion | class `Worker` |
| utils.dfy | Utils | `check_dependencies`, `validate_output_path`, duration and frame-rate queries |
| ui.dfy | Ui | `WheelSpinBox`, the start checks, the option and progress-bar state |

Outside effects are inputs to the model:

- the results of `shutil.which` are a map;
- filesystem facts about a path are a record;
- `ffprobe`'s answer is an `Option`;
- whether a temporary directory can be made and whether a process launches are an `Env` value;
- the signals a process sends arrive as inputs to `WorkerMachine.Handle`.

Signals the worker emits are recorded as a sequence of events with structured payloads.

Behaviour of the code that the model makes explicit:

- WebP progress. On the WebP path the worker's step is still IDLE, whose weight is 0, so every weighted progress value it reports is 0 or -1 (`WorkerLogic.IdleProgressIsZero`).
- Partial lines. Only `ProcessRunner` keeps a partial stdout line until it is completed. The worker's stdout handler handles every piece, including a trailing partial line, and then empties its buffer. A `frame=` line split across two reads is therefore undercounted (`WorkerRuns.SplitFrameLineUndercounts`, stated for a run with a known duration, where the render's `-progress pipe:1` sends such lines to stdout).
- One finished signal. Each input to the worker sends at most one finished signal (`WorkerProperties.SingleEndingPerInput`). A cancelled WebP run still reports both Cancelled and Succeeded over two inputs when Qt reports the terminated ffmpeg as crashed, because the WebP finished handler finalises regardless (`WorkerRuns.CancelledWebpReportsBoth`); when ffmpeg instead exits normally, only Succeeded is reported (`WorkerRuns.CancelledWebpNormalExit`).
- Argument lists. The worker builds its own argument lists instead of calling the engine's plans. They differ as follows:
  - the worker always adds a scale stage and never crops (`WorkerLogic.WorkerChainVsEngine`);
  - the palette run is the engine's palette plan with `-frames:v 1` inserted after the filter (`WorkerLogic.PaletteArgsVsEngine`);
  - the render is the engine's render plan with the worker's graph, plus a second `-loop 0` for a `.webp` output (`WorkerLogic.RenderArgsVsEngine`, `WorkerLogic.RenderArgsLoops`);
  - the WebP run is the engine's WebP plan with `-loop 0` inserted after the filter, so it carries `-loop` twice (`WorkerLogic.WebpArgsVsEngine`, `WorkerLogic.WebpArgsLoops`).
- Palette log prefix. The palette process is tagged with the render log prefix, not the palette prefix.

## Model

| member | source | states |
|---|---|---|
| Engine.IsWebpOutput | engine.py:17-18 | true exactly when the path, lower-cased, ends with `.webp` |
| Engine.ScaleCrop | engine.py:124-133 | nothing for -1:-1; one lanczos scale when exactly one side is -1; otherwise a cover-scale followed by a centred crop of exactly width:height |
| Engine.BaseFilters | engine.py:114-121 | the chain is fps stage, speed stage, scale/crop stages in that order; empty exactly when fps is -1, speed is 1 or unset, and both sides are -1 |
| Engine.BuildPalettePlan | engine.py:21-34 | ffmpeg with the palette prefix; ten arguments, `-vf` and its filter at positions 4-5 and `-y <palette>` last; the remaining six are stated by `EngineFacts.PalettePlanArgs` |
| EngineFacts.PalettePlanArgs | engine.py:26-32 | the palette plan's other arguments: `-v warning -i <input>` first and `-update 1` between the filter and `-y` |
| Engine.BuildGifRenderPlan | engine.py:37-58 | ffmpeg with the render prefix; the whole argument list is stated by `EngineFacts.GifRenderPlanArgs` |
| Engine.BuildWebpPlan | engine.py:71-95 | ffmpeg with the render prefix; the whole argument list is stated by `EngineFacts.WebpPlanParts` |
| Engine.RenderFilterComplex | engine.py:37-43 | no contract of its own; its whole text is stated by `EngineFacts.RenderFilterText` |
| Engine.PaletteFilter | engine.py:21-24 | no contract of its own; its whole text is stated by `EngineFacts.PaletteFilterShape` |
| Engine.WebpFilter | engine.py:71-73 | no contract of its own; its whole text is stated by `EngineFacts.WebpFilterShape` |
| Engine.WebpQualityArgs | engine.py:81-87 | no contract of its own; which flags it holds is stated by `EngineFacts.QualityArgsFlags` |
| Engine.BuildGifsiclePlan | engine.py:61-68 | gifsicle with the optimise prefix: `-O3`, the loop flag chosen by `loop`, the output optimised in place |
| EngineFacts.RenderFilterShape | engine.py:37-43 | the filter graph feeds both inputs straight to `paletteuse` exactly when the base chain is empty, and always ends with `paletteuse=dither=<setting>` |
| EngineFacts.RenderFilterText | engine.py:37-43 | the whole graph: `[0:v][1:v]paletteuse=dither=<d>` for an empty chain, otherwise `[0:v]<chain joined by commas>[x];[x][1:v]paletteuse=dither=<d>` |
| EngineFacts.GifRenderPlanArgs | engine.py:37-58 | the render plan's whole argument list: the progress pair exactly for a known positive duration, then `-v warning -i <input> -i <palette> -filter_complex <graph> -loop <0 or 1> -y <output>` |
| EngineFacts.WebpPlanParts | engine.py:71-95 | the WebP plan's whole argument list: the progress pair exactly for a known positive duration, the input and `-vf` filter, the quality arguments, the loop flag, then `-y <output>` |
| EngineFacts.PaletteFilterShape | engine.py:21-29 | the palette filter is the base chain joined by commas, then `format=rgb24`, then `palettegen=stats_mode=<mode>` |
| EngineFacts.WebpFilterShape | engine.py:71-78 | the WebP filter is the base chain joined by commas, then `format=rgba` |
| EngineFacts.GifRenderPlanFlags | engine.py:37-58 | the render plan has exactly one `-loop` (value 0 when looping, 1 otherwise), ends with `-y <output>`, and starts with `-progress pipe:1` exactly when the duration is known and positive |
| EngineFacts.WebpPlanLoop | engine.py:71-95 | the same for the WebP plan: one `-loop`, output last, progress flags exactly for a known positive duration |
| EngineFacts.WebpPlanQuality | engine.py:81-87 | the WebP plan has `-lossless` exactly when lossless is chosen, and `-q:v` and `-compression_level` exactly when it is not |
| EngineFacts.QualityArgsFlags | engine.py:81-87 | the same, for the quality arguments alone |
| Engine.SpaceRunEnd | engine.py:99 | the end of the maximal run of `\s` from a position |
| Engine.DigitRunEnd | engine.py:99-100 | the end of the maximal run of digits from a position |
| Engine.MatchPosition | engine.py:99-100 | the first position from which the pattern matches, or none when it matches nowhere after the start |
| Engine.SearchIsLeftmost | engine.py:99-100 | `re.search`: a value exactly when a leftmost match exists, and then the number read at that match |
| Engine.ParseFfmpegProgressLine | engine.py:98-105 | the frame value is present exactly when `frame=\s*\d+` matches and is read at the leftmost match; likewise for `out_time_ms=\d+` |
| EngineFacts.FrameLineRoundTrip | engine.py:98-105 | a line `frame=`, padding, the digits of n, then a non-digit parses to frame n |
| EngineFacts.OutTimeLineRoundTrip | engine.py:98-105 | the line `out_time_ms=<n>` parses to no frame and time n |
| EngineFacts.SearchWithoutKeyStart | engine.py:99-100 | a line without the key's first character has no match |
| EngineFacts.ParseWithoutFields | engine.py:98-105 | a line with neither `f` nor `o` parses to (None, None) |
| Engine.EstimateTotalFrames | engine.py:108-111 | none exactly when the duration or the frame rate is missing or zero; otherwise their product truncated toward zero |
| Models.Trunc | engine.py:111 | `int()` of a float: the integer next to it toward zero |
| TextLines.Split | process_runner.py:71 | at least one piece; no piece contains CR or LF |
| TextLines.KeptIsTrailingPartialLine | process_runner.py:72 | the kept buffer has no line break, is non-empty exactly when the text does not end in CR or LF, and is then the text after the last break |
| TextLines.EmittedAreLines | process_runner.py:73-76 | every emitted line is non-empty and has no line break |
| TextLines.EmittedThenKept | process_runner.py:71-76 | the emitted lines followed by the kept partial line are all lines of the text |
| TextLines.ChunkBoundaryIrrelevant | process_runner.py:68-76 | the lines of text s + c equal those emitted for s followed by the lines of the kept part of s + c |
| TextLines.LinesAppend | process_runner.py:71 | splitting a concatenation: the complete lines of the first part, then the lines of its last piece joined with the rest |
| TextLines.LinesAfterBreak | process_runner.py:71 | after a line break, the lines of a concatenation are the lines of each part |
| TextLines.CompletePart | process_runner.py:71-76 | text = its complete part + the kept part; the complete part ends in a break and its lines are the emitted ones |
| Runner.EmitNonEmpty | process_runner.py:74-76 | the emitted lines are the non-empty pieces, in order |
| Runner.ReadChunk | process_runner.py:68-76 | the lines emitted and the buffer kept are those of buffer + chunk |
| Runner.StreamLines | process_runner.py:64-76 | the lines emitted so far plus the pending partial line are the lines of all the text read |
| Runner.StreamStep | process_runner.py:64-76 | one read preserves that invariant and emits exactly the new complete lines |
| Runner.ProcessRunner.constructor | process_runner.py:14-20 | no process, empty buffers, prefix and error |
| Runner.ProcessRunner.Start | process_runner.py:29-54 | refused with "Process already running" and nothing changed while a process runs; otherwise buffers cleared, prefix set, and either a running child or the launch error |
| Runner.ProcessRunner.Terminate | process_runner.py:56-58 | a running child gets one terminate request; otherwise nothing changes |
| Runner.ProcessRunner.Kill | process_runner.py:60-62 | a running child gets one kill request; otherwise nothing changes |
| Runner.ProcessRunner.ChildStopped | process_runner.py:26-27 | model environment, not a source function: the held child's QProcess state turns NotRunning (read by `is_running`) before the finished notification releases it; the handle is kept, only its running flag drops |
| Runner.ProcessRunner.OnReadyReadStdout | process_runner.py:64-76 | without a process nothing; otherwise emits the complete lines of buffer + chunk, keeps the partial line, and no text is lost or repeated |
| Runner.ProcessRunner.OnReadyReadStderr | process_runner.py:78-90 | the same for standard error |
| Runner.ProcessRunner.OnFinished | process_runner.py:92-98 | releases the process and forwards the code, status and the prefix held before |
| Runner.ProcessRunner.OnError | process_runner.py:100-103 | forwards the error with the current prefix |
| WorkerLogic.StepWeightsSumTo100 | worker.py:28-34 | the step weights add up to 100 |
| WorkerLogic.WeightTable | worker.py:30-34 | weight before and weight of each step: palette 0/10, render 10/70, optimise 80/20, idle and finished none |
| WorkerLogic.RoundHalfEven | worker.py:386 | `round()` is within one half of its argument |
| WorkerLogic.WeightedProgressBounds | worker.py:379-386 | a step-local share in 0..100 maps into that step's band and into 0..100 overall |
| WorkerLogic.WeightedEventBounds | worker.py:379-386 | a share of at most 100 never reports more than 100, and a non-negative share never less than 0 |
| WorkerLogic.StepBoundaries | worker.py:379-386 | the end of each step's band is the start of the next one's |
| WorkerLogic.WeightedProgressMonotone | worker.py:379-386 | overall progress never decreases when the step advances or the share grows |
| WorkerLogic.WeightedProgress | worker.py:379-386 | no contract of its own; its bounds, band ends and monotonicity are stated by `WorkerLogic.WeightedProgressBounds`, `WorkerLogic.StepBoundaries` and `WorkerLogic.WeightedProgressMonotone` |
| WorkerLogic.WeightedEvent | worker.py:379-386 | no contract of its own; the value's range is stated by `WorkerLogic.WeightedEventBounds` |
| WorkerLogic.FindFrom | worker.py:303-305 | finds a substring exactly when it occurs at some position |
| WorkerLogic.FindRepeat | worker.py:304-305 | finds `last message repeated \d+ times` exactly when it occurs at some position |
| WorkerLogic.ShortLinesAreLogged | worker.py:299-307 | a line shorter than both patterns is never dropped |
| WorkerLogic.RepeatNoticeIsBenign | worker.py:303-306 | any line containing "Last message repeated n times" is dropped |
| WorkerLogic.IsBenignWarning | worker.py:299-307 | no contract of its own; what it drops and keeps is stated by `WorkerLogic.RepeatNoticeIsBenign` `WorkerLogic.BenignWarningExactly` and `WorkerLogic.ShortLinesAreLogged` |
| WorkerLogic.BenignWarningExactly | worker.py:303-306 | a line is dropped exactly when, case-insensitively, it contains the sRGB warning or a repeat notice somewhere; every other line is logged |
| WorkerLogic.StderrLogsExact | worker.py:287-307 | logged entries are exactly the stripped non-empty lines that are not harmless warnings |
| WorkerLogic.WorkerChainVsEngine | worker.py:112-118 | the worker's chain matches the engine's frame-rate and speed stages, always ends in a plain scale, equals the engine's chain when exactly one side is -1, and adds a scale the engine omits for -1:-1 |
| WorkerLogic.PaletteArgs | worker.py:112-128 | no contract of its own; the whole list is related to the engine's palette plan by `WorkerLogic.PaletteArgsVsEngine` |
| WorkerLogic.RenderArgs | worker.py:145-175 | no contract of its own; the whole list is related to the engine's render plan by `WorkerLogic.RenderArgsVsEngine`, its graph by `WorkerLogic.RenderFilterVsEngine` |
| WorkerLogic.OptimizeArgs | worker.py:196-201 | no contract of its own; equal to the engine's gifsicle plan by `WorkerLogic.OptimizeArgsMatchEngine` |
| WorkerLogic.WebpArgs | worker.py:419-457 | no contract of its own; the whole list is related to the engine's WebP plan by `WorkerLogic.WebpArgsVsEngine` |
| WorkerLogic.OptimizeArgsMatchEngine | worker.py:196-201 | the worker's gifsicle arguments are exactly the engine's plan |
| WorkerLogic.PaletteArgsVsEngine | worker.py:122-128 | the worker's palette list is the engine's ten-argument plan with the worker's filter in the `-vf` slot and `-frames:v 1` inserted after it; the filters are the same text when the chains agree |
| WorkerLogic.RenderArgsVsEngine | worker.py:157-175 | the worker's render list is the engine's render plan with the worker's graph in the `-filter_complex` slot and, for a `.webp` output, `-loop 0` inserted before `-y <output>` |
| WorkerLogic.RenderArgsLoops | worker.py:164-170 | the render list holds `-loop` twice for a `.webp` output and once otherwise |
| WorkerLogic.WebpArgsVsEngine | worker.py:434-457 | the worker's WebP list is the engine's WebP plan with the worker's filter in the `-vf` slot and `-loop 0` inserted after it; the filters are the same text when the chains agree |
| WorkerLogic.WebpArgsLoops | worker.py:434-452 | the WebP list holds `-loop` twice |
| WorkerLogic.RenderFilterVsEngine | worker.py:147-155 | when the chains agree, the worker's graph is the engine's without the `[0:v]` label |
| WorkerLogic.RenderLine | worker.py:256-285 | no contract of its own; what a render-tagged line does is stated by `WorkerLogic.StdoutLineEffect` and `WorkerLogic.FrameShareNeverReported` |
| WorkerLogic.StdoutLine | worker.py:256-285 | no contract of its own; its effect is stated by `WorkerLogic.StdoutLineEffect` |
| WorkerLogic.StdoutLineEffect | worker.py:256-285 | one line: the frame count only grows, and to the leftmost `frame=` value on render-tagged output; at most one event, progress capped at 100, or an optimiser log line |
| WorkerLogic.StdoutLinesEffect | worker.py:249-254 | over a whole read: the frame count never decreases, progress stays capped, only progress or optimiser events |
| WorkerLogic.FrameShareNeverReported | worker.py:272-281 | without a duration, only the busy value -1 is ever reported, and a frame line aborts the handler exactly when no estimate was ever set |
| WorkerLogic.IdleProgressIsZero | worker.py:379-386 | progress reported while the step is idle (the whole WebP path) is always 0 or -1 |
| WorkerLogic.StdoutLinesCons | worker.py:250-253 | the handler's loop, one line at a time: empty pieces skipped, stop on an abort |
| WorkerLogic.StdoutLinesFromSuffix | worker.py:250-253 | the loop read from position i on is the loop over the pieces from i on |
| WorkerLogic.ResumeAt | worker.py:250-253 | the loop's invariant step: an empty piece is skipped; an aborting line ends the loop with what was emitted so far; any other line carries the invariant to the next piece |
| WorkerLogic.CappedConcat | worker.py:379-386 | progress capped at 100 is kept by concatenation |
| Conversion.Worker.constructor | worker.py:43-57 | idle, not cancelled, no process, no temporary files, frame count 0 |
| Conversion.Worker.Emit | worker.py:38-41 | appends the signals to those sent |
| Conversion.Worker.CleanupTempFiles | worker.py:369-377 | the temporary directory is removed (one cleanup event) and forgotten with the palette |
| Conversion.Worker.HandleError | worker.py:354-359 | progress 0, one failed finish with the cause, cleanup, step idle |
| Conversion.Worker.HandleCancellation | worker.py:361-367 | progress 0, one cancelled finish, cleanup, step idle |
| Conversion.Worker.FinalizeConversion | worker.py:204-215 | step finished, progress 100, one success carrying the frame count (0 shown as unknown), cleanup |
| Conversion.Worker.RunQProcess | worker.py:217-239 | cancelled: the cancellation; otherwise a running process with the arguments and tag, or the failed-start error |
| Conversion.Worker.ExecutePaletteGeneration | worker.py:98-130 | step palette at 5 %, then either the temp-directory error or the palette run with the palette file in the new directory |
| Conversion.Worker.ExecuteGifRendering | worker.py:132-182 | missing palette: error; otherwise step render, frame count reset, start progress (10 or busy), the render run |
| Conversion.Worker.ExecuteGifOptimization | worker.py:184-202 | a `.webp` output skips to finalising; otherwise step optimise at 30 % and the gifsicle run |
| Conversion.Worker.StartNextStep | worker.py:88-96 | cancelled: the cancellation; otherwise the action for the current step; for idle the source's table lookup raises `KeyError` as its last statement, which leaves the state unchanged, and the model does nothing |
| Conversion.Worker.RequestCancellation | worker.py:66-80 | only the first request counts; a running process gets a terminate request and the kill timer is armed |
| Conversion.Worker.ForceKillIfRunning | worker.py:82-86 | a running process gets a kill request |
| Conversion.Worker.OnKillTimerTimeout | worker.py:76-86 | an armed timer fires once and escalates to kill |
| Conversion.Worker.OnProcessFinished | worker.py:309-343 | timer dropped, process released; then cancellation, exit-code error, or the step's 100 % and the next step |
| Conversion.Worker.OnProcessError | worker.py:345-352 | a crash after cancellation is the cancellation; anything else is a failure |
| Conversion.Worker.OnWebpFinished | worker.py:461-463 | finalises as a success, whatever the exit |
| Conversion.Worker.ProcessStdoutLine | worker.py:256-285 | the frame count and signals are those of the one-line function; aborts where the source raises |
| Conversion.Worker.ProcessPiece | worker.py:250-253 | one pass of the loop: skips an empty piece, otherwise handles the line, and keeps the loop's invariant or ends it on an abort |
| Conversion.Worker.ProcessPieces | worker.py:250-253 | the loop over the pieces ends in the state of the whole-read function |
| Conversion.Worker.OnProcessStdout | worker.py:241-254 | handles every piece of buffer + chunk, then empties the buffer (kept only when a line aborted) |
| Conversion.Worker.OnProcessStderr | worker.py:287-297 | logs the non-benign lines of the chunk, with nothing buffered |
| Conversion.Worker.RunWebpConversion | worker.py:419-480 | progress 0 and one ffmpeg run to the WebP handler, or the failed-start error |
| Conversion.Worker.RunConversion | worker.py:388-417 | reset; WebP output: the WebP run; otherwise the palette step, then the frame estimate |
| Conversion.Worker.Handle | worker.py:241-352 | every slot ends in the state-machine's state and keeps the worker's invariant |
| WorkerProperties.ValidPreserved | worker.py:43-480 | every input keeps the invariant: frame count non-negative, palette inside the temp directory, progress at most 100, a non-zero estimate only with a duration |
| WorkerProperties.InitialValid | worker.py:43-57 | the initial state satisfies the invariant |
| WorkerProperties.ValidPaletteGeneration | worker.py:98-130 | the palette step keeps the invariant |
| WorkerProperties.ValidGifRendering | worker.py:132-182 | the render step keeps the invariant |
| WorkerProperties.ValidGifOptimization | worker.py:184-202 | the optimise step, or the skip to finalising, keeps the invariant |
| WorkerProperties.ValidFinalize | worker.py:204-215 | finalising keeps the invariant |
| WorkerProperties.ValidStartNextStep | worker.py:88-215 | starting any step keeps the invariant |
| WorkerProperties.ValidProcessFinished | worker.py:309-343 | a finished process keeps the invariant |
| WorkerProperties.ValidStdoutChunk | worker.py:241-285 | a stdout read keeps the invariant |
| WorkerProperties.ValidRunConversion | worker.py:388-417 | starting a conversion keeps the invariant |
| WorkerProperties.StderrLogsCapped | worker.py:287-307 | standard-error handling reports no progress above 100 |
| WorkerProperties.EndingOnce | worker.py:354-367 | an error, cancellation or success sends exactly one finished signal and leaves no temp files |
| WorkerProperties.EndingRunQProcess | worker.py:217-239 | starting a process sends at most one finished signal, with the temp files gone if it does |
| WorkerProperties.EndingPaletteGeneration | worker.py:98-130 | the palette step sends at most one finished signal (the temp-directory or start error), with the temp files gone if it does |
| WorkerProperties.EndingGifRendering | worker.py:132-182 | the same for the render step |
| WorkerProperties.EndingGifOptimization | worker.py:184-215 | the same for the optimise step, including the skip to finalising |
| WorkerProperties.EndingStartNextStep | worker.py:88-215 | the same for any step, including the skip from optimise to finish |
| WorkerProperties.EndingProcessFinished | worker.py:309-343 | the same for a finished process |
| WorkerProperties.EndingStdoutChunk | worker.py:241-285 | a stdout read never sends a finished signal |
| WorkerProperties.SingleEndingPerInput | worker.py:241-480 | every input sends at most one finished signal, and the temp files are gone when it does |
| WorkerProperties.CancelledStartsNothing | worker.py:88-90 | after cancellation with no running process, no input except a new run starts a process, and the flag stays set |
| WorkerProperties.CancelledFinishIsCancellation | worker.py:309-323 | a process that finishes after cancellation is reported as cancelled (progress 0, one finish) with cleanup, whatever its exit |
| WorkerProperties.FailedExitIsError | worker.py:309-333 | a crash or non-zero exit without cancellation: progress 0, one failed finish naming the prefix and the code, cleanup, step idle, process released |
| WorkerProperties.MissingPaletteIsError | worker.py:132-136 | rendering without an existing palette: progress 0, one missing-palette failure, cleanup, step idle, no process started |
| WorkerProperties.WebpSkipsOptimizer | worker.py:184-190 | a `.webp` output in the optimise step starts no process: progress 100 and one success with cleanup, or the cancellation when one was requested |
| WorkerProperties.CancelEscalates | worker.py:66-86 | cancelling a running process sends terminate and arms the timer; a second request does nothing; the timer adds kill only if the process still runs |
| WorkerRuns.StepProgressValues | worker.py:101-338 | the values reported: palette 5 % is 0 (half-to-even), then 10, 10, 80, 86, 100 |
| WorkerRuns.GifRunStarts | worker.py:388-401 | a GIF run starts the palette process on the temp directory's palette, having reported 0 |
| WorkerRuns.GifRunRenders | worker.py:132-182 | after the palette, the render process starts with progress 10 and 10 (or busy) |
| WorkerRuns.GifRunOptimizes | worker.py:184-202 | after the render, gifsicle starts with progress 80 and 86 |
| WorkerRuns.OptimizerExits | worker.py:309-343 | a clean exit of the optimiser, not cancelled, records 100 % of the step and finalises |
| WorkerRuns.GifConversionRun | worker.py:204-215 | a GIF run with three clean exits ends at 100 with one success and the temp directory removed |
| WorkerRuns.WebpConversionRun | worker.py:419-480 | a WebP run starts one ffmpeg process without a frame estimate and ends with one success |
| WorkerRuns.CancelledWebpReportsBoth | worker.py:461-463 | a cancelled WebP run whose terminated ffmpeg Qt reports as crashed reports Cancelled and then Succeeded |
| WorkerRuns.CancelledWebpNormalExit | worker.py:461-463 | a cancelled WebP run whose ffmpeg exits normally reports only Succeeded: the cancellation is lost |
| WorkerRuns.EstimateMatchesEngine | worker.py:402-417 | the worker's frame estimate is the engine's estimate, or 0 |
| WorkerRuns.ZeroEstimateLine | worker.py:274-281 | with an estimate of 0 a frame line never aborts and only raises the count |
| WorkerRuns.ChunkOfOneLine | worker.py:241-254 | a read of one line, with or without its newline, acts as that line |
| WorkerRuns.DurationFrameLine | worker.py:258-271 | with a known duration, a line without `out_time_ms=` reports nothing and only raises the count to its frame value, whatever the estimate |
| WorkerRuns.WholeRead | worker.py:241-263 | with a known duration, a whole `frame=` line read at once sets the frame count to its value |
| WorkerRuns.SplitFrameLineUndercounts | worker.py:249-254 | with a known duration (the case in which the render asks for `-progress pipe:1`) and any estimate, the same line split after its first digits leaves the count at the shorter number |
| Utils.CheckDependencies | utils.py:40-51 | the found tools with their paths and "PATH", and the missing ones, in the order ffmpeg, ffprobe, gifsicle |
| Utils.ToolsPartitioned | utils.py:44-49 | each name is found (with its lookup result) or missing, never both, and nothing else appears |
| Utils.MissingToolsOrdered | utils.py:44-49 | missing tools keep the lookup order |
| Utils.AllOrNoneFound | utils.py:40-51 | all found: nothing missing; none found: all three missing |
| Utils.ValidateOutputPath | utils.py:56-75 | accepted exactly when the name is non-empty, not a directory, the parent exists and is writable, and no forbidden character appears |
| Utils.FirstFailureReported | utils.py:56-75 | the problem reported is the first failing check in the source's order |
| Utils.ForbiddenCharRefused | utils.py:71-73 | a name containing any forbidden character (angle brackets, colon, double quote, either slash, bar, question mark, star) is refused |
| Utils.ProbeTimeout | utils.py:89-94 | the timeout lies in 10..60 seconds |
| Utils.ProbeTimeoutMonotone | utils.py:94 | a larger file never gets a shorter timeout |
| Utils.ProbeTimeoutRegions | utils.py:89-94 | 10 below 100 MiB or when the size is unknown, 60 from 1100 MiB, size/20 MiB + 5 between |
| Utils.VideoDuration | utils.py:77-109 | no probe and no duration without ffprobe or input file; otherwise an 8-argument ffprobe call on the input with that timeout |
| Utils.DurationProbeFlags | utils.py:96-101 | the probe's six fixed arguments between the program and the input: `-v error -show_entries format=duration -of default=noprint_wrappers=1:nokey=1` |
| Utils.FrameRateFromText | utils.py:123-127 | no contract of its own; its reading is stated by `Utils.FrameRateRoundTrip` and `Utils.FrameRateNeedsOneSlash` |
| Utils.FrameRateRoundTrip | utils.py:123-127 | "num/denom" reads back as num/denom, and a zero denominator as none |
| Utils.FrameRateNeedsOneSlash | utils.py:125-126 | a rate is read only from text with exactly one slash |
| Utils.VideoFps | utils.py:123-131 | no ffprobe answer gives no rate |
| Strings.ParseInt | ui.py:408-410 | no contract of its own; `Strings.ParseIntOfIntToString` states that it reads back what `str()` writes |
| Strings.ParseIntOfIntToString | ui.py:47 | `int(str(n))` is n |
| Strings.Strip | utils.py:125 | `strip()` leaves no leading or trailing white space and is never longer than its argument |
| Strings.StripIsSlice | utils.py:125 | the stripped text is a slice of the argument with only white space before and after it |
| Ui.Clamp | ui.py:64-67 | the result lies in the range, equals the value when that is in range, and saturates at the nearer end otherwise (at the lower bound when the bounds cross) |
| Ui.WheelStep | ui.py:53-58 | Ctrl steps by 1, Shift by five steps, otherwise by one step |
| Ui.WheelStart | ui.py:46-49 | the integer in the text, or the minimum when the text is not one |
| Ui.WheelMove | ui.py:51-67 | the result lies in minimum..maximum; it is the start plus whole notches (floor of angle/120) times the notch's step when that lies in range, else maximum or minimum; a box at -1 turned up goes to 0 when 0 is in range |
| Ui.WheelValue | ui.py:45-70 | the new value lies in minimum..maximum; less than a notch up leaves the parsed text (or the minimum), clamped into range |
| Ui.WheelSpinBox.constructor | ui.py:38-43 | the text shows the minimum |
| Ui.WheelSpinBox.WheelEvent | ui.py:45-70 | the text becomes the new value |
| Ui.WheelTextReadsBack | ui.py:45-70 | the text written reads back as the value computed |
| Ui.WheelLeavesMinusOne | ui.py:60-61 | scrolling up from -1 goes to 0 (clamped), not to -1 + step |
| Ui.WheelFromUnreadableText | ui.py:46-49 | unreadable text behaves as the minimum |
| Ui.WheelDirection | ui.py:51-67 | scrolling up never lowers an in-range value; scrolling down never raises it |
| Ui.CheckNumbers | ui.py:407-420 | accepted exactly when all three read as integers, fps is -1 or positive, and each size is -1 or positive |
| Ui.CheckStart | ui.py:398-420 | accepted exactly when the input is a file, the output path is valid, and the numbers pass; the input is checked first |
| Ui.CheckNumbersOfIntegers | ui.py:407-420 | for typed integers, the same iff, with a bad fps reported before a zero size |
| Ui.UnreadableNumberRefused | ui.py:407-420 | any unreadable field refuses the start |
| Ui.WebpOptionStates | ui.py:373-387 | GIF-only options enabled exactly for non-WebP output; WebP quality enabled exactly for lossy WebP; button and title follow |
| Ui.OptionsFollowWorker | ui.py:374-375 | the window's WebP test is the worker's |
| Ui.ConverterWindow.constructor | ui.py:97-270 | bar 0 of 0..100 with the default label, all option widgets enabled, GIF texts |
| Ui.ConverterWindow.UpdateWebpOptionsState | ui.py:373-387 | the option widgets take the states above |
| Ui.ProgressLabel | ui.py:295 | the given text, or "Progress: n%" |
| Ui.ProgressLabelShowsValue | ui.py:295 | the default label reads back as the value |
| Ui.ConverterWindow.UpdateProgressBar | ui.py:289-295 | busy exactly for a negative value; entering it keeps a value of 0 and resets any other to -1, as Qt's `setRange` does; otherwise range 0..100 at the value, which a value above 100 leaves unchanged, as Qt's `setValue` does; the bar stays busy or 0..100 with its value in range or -1 |
| Ui.BarModeOf | ui.py:290-294 | busy exactly for a negative value, else that percentage |
| Ui.WorkerProgressFitsBar | ui.py:289-295 | every worker progress value is busy or within 0..100 |

## Left out

- Qt signals, slots, threads and the event loop. The order in which slots run is a sequence of inputs to `WorkerMachine.Handle`.
- Log and message texts: HTML, plain log lines and dialog texts. Events carry their payloads as values.
- Process launching, temporary-directory creation, `shutil.which`, `Path.is_file`/`exists`/`os.access` and the ffprobe subprocess. These are inputs: the `Env` value, maps, records and `Option`s.
- The 5000 ms `waitForStarted` and the 100 ms kill-timer interval. Only the fact that the timer fires or not is modelled.
- Floating-point arithmetic. Float products and quotients are exact reals, so `int()` or `round()` of them may differ by one from the IEEE double result: the frame estimate `int(duration * fps)` (`Engine.EstimateTotalFrames`, `WorkerMachine.Estimate`), the share `frames / total * 100` and the time share in `WorkerLogic.RenderLine`, and `WorkerLogic.WeightedProgress`.
- Unicode character classes. `\s`, `\d`, `re.I`, `str.strip()` and `str.lower()` are ASCII-only in the model (`Strings.IsSpace`, `Strings.IsDigit`, `Strings.Lower`). This affects the progress-line scanner (`Engine.SpaceRunEnd`, `Engine.DigitRunEnd`), the benign-warning filter (`WorkerLogic.IsBenignWarning`) and the stripping of log lines: a non-breaking space or a non-ASCII digit, which Python's classes accept, is not whitespace or a digit here.
- Float text and float parsing. `Models.Float` carries the text `str()` would print; the duration read from ffprobe is an input.
- Strings.ParseInt: Python's `int()` on ASCII text only (no underscores, no non-ASCII digits), and without CPython's limit of 4300 digits, past which `int()` raises ValueError; the model reads such text as a number, so `Ui.WheelStart` and `Ui.CheckNumbers` take it as a value where the program falls back to the minimum or reports an invalid number.
- Utils.VideoDuration: an ffprobe that cannot be launched (a missing or non-executable file) raises OSError, which utils.py:106 does not catch, so it escapes `get_video_duration` and `start_conversion` (ui.py:392); the model has no such outcome and the caller sees None as for any other probe failure.
- Byte decoding with `errors="replace"`. Chunks are already text.
- Path normalisation. The output name is an input field.
- Qt's progress bar is reduced to the two ranges this window gives it (busy and 0..100); its behaviour under other ranges, and its painting, are not modelled.
- `SpeedSpinBox`, drag and drop, file dialogs, `closeEvent`, `main.py`, and the thread wiring at the end of `start_conversion`.
- The duration warning in `start_conversion`, and the unchecked `int()` of the WebP quality fields after the checks.
- The worker's `stderr_buffer`, which is never used.
- Errors while removing the temporary directory.
- A failed launch followed by Qt's `errorOccurred(FailedToStart)`. It is a separate `ProcessFails` input, which reports a second failure.
- Utils.VideoFps: states only that no ffprobe answer gives no rate. The parse of the answer is stated by `Utils.FrameRateRoundTrip` and `Utils.FrameRateNeedsOneSlash`.
- Engine.BuildGifRenderPlan: the ensures gives only the program and prefix. The whole argument list is stated by `EngineFacts.GifRenderPlanArgs`, with the filter graph's text by `EngineFacts.RenderFilterText`.
- Engine.BuildWebpPlan: the ensures gives only the program and prefix. The whole argument list is stated by `EngineFacts.WebpPlanParts`, with the filter by `EngineFacts.WebpFilterShape` and the quality flags by `EngineFacts.QualityArgsFlags`.
