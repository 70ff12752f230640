/** The pure parts of the conversion worker: its steps and their progress
    weights, the argument lists it builds for each external step, the filter
    that silences harmless ffmpeg warnings, and what one line of a process's
    output does to the frame counter and to the reported progress. The worker
    builds its own argument lists; the lemmas here compare them with the plan
    builders of the engine. */
module WorkerLogic {
  import opened Options
  import opened Strings
  import opened Models
  import opened TextLines
  import Engine
  import EngineFacts

  // ---------------------------------------------------------------------------
  // Steps and weights

  datatype Step = Idle | Palette | Render | Optimize | Finished
  {
    /** The member's `auto()` value. */
    function Value(): nat {
      match this
      case Idle => 1
      case Palette => 2
      case Render => 3
      case Optimize => 4
      case Finished => 5
    }
  }

  /** `STEP_WEIGHTS`, entry by entry. */
  const StepWeights: seq<(Step, int)> := [(Palette, 10), (Render, 70), (Optimize, 20)]

  function TotalWeight(entries: seq<(Step, int)>): int {
    if entries == [] then 0 else TotalWeight(AllButLast(entries)) + Last(entries).1
  }

  /** The weights of the entries whose step has a smaller value than `step`. */
  function WeightBefore(entries: seq<(Step, int)>, step: Step): int {
    if entries == [] then 0
    else WeightBefore(AllButLast(entries), step)
         + (if Last(entries).0.Value() < step.Value() then Last(entries).1 else 0)
  }

  /** `STEP_WEIGHTS.get(step, 0)` */
  function WeightOf(entries: seq<(Step, int)>, step: Step): int {
    if entries == [] then 0
    else if Last(entries).0 == step then Last(entries).1
    else WeightOf(AllButLast(entries), step)
  }

  /** `_emit_weighted_progress` before rounding: the weights of the earlier
      steps plus the share `p` (a percentage) of the current step's weight. */
  function WeightedProgress(step: Step, p: real): real {
    WeightBefore(StepWeights, step) as real + WeightOf(StepWeights, step) as real * p / 100.0
  }

  /** The weights add up to 100. */
  lemma StepWeightsSumTo100()
    ensures TotalWeight(StepWeights) == 100
  {
    assert AllButLast(StepWeights) == [(Palette, 10), (Render, 70)];
    assert AllButLast(AllButLast(StepWeights)) == [(Palette, 10)];
    assert AllButLast([(Palette, 10)]) == [];
  }

  /** The weight of each step and of the steps before it: a step's share runs
      from where the previous one ends to where the next one starts. */
  lemma WeightTable(step: Step)
    ensures WeightBefore(StepWeights, step) == match step
      case Idle => 0 case Palette => 0 case Render => 10 case Optimize => 80 case Finished => 100
    ensures WeightOf(StepWeights, step) == match step
      case Idle => 0 case Palette => 10 case Render => 70 case Optimize => 20 case Finished => 0
  {
    var e2 := [(Palette, 10), (Render, 70)];
    var e1 := [(Palette, 10)];
    assert AllButLast(StepWeights) == e2 && Last(StepWeights) == (Optimize, 20);
    assert AllButLast(e2) == e1 && Last(e2) == (Render, 70);
    assert AllButLast(e1) == [] && Last(e1) == (Palette, 10);
  }

  /** Python's `round` on a float: to the nearest integer, halves to the even one. */
  function RoundHalfEven(x: real): (r: int)
    ensures x - 0.5 <= r as real <= x + 0.5
  {
    var f := x.Floor;
    var d := x - f as real;
    if d < 0.5 then f else if d > 0.5 then f + 1 else if f % 2 == 0 then f else f + 1
  }

  /** `_emit_weighted_progress`: the weighted progress, rounded. */
  function WeightedEvent(step: Step, p: real): Event {
    Progress(RoundHalfEven(WeightedProgress(step, p)))
  }

  /** For a step-local percentage in [0, 100] the global progress stays within
      the step's share, and so within [0, 100]. */
  lemma WeightedProgressBounds(step: Step, p: real)
    requires 0.0 <= p <= 100.0
    ensures var lo := WeightBefore(StepWeights, step) as real;
      lo <= WeightedProgress(step, p) <= lo + WeightOf(StepWeights, step) as real
    ensures 0.0 <= WeightedProgress(step, p) <= 100.0
  {
    WeightTable(step);
  }

  /** Whatever the step, a percentage of at most 100 never reports more than
      100, before or after rounding; one in [0, 100] reports at least 0. */
  lemma WeightedEventBounds(step: Step, p: real)
    requires p <= 100.0
    ensures WeightedProgress(step, p) <= 100.0
    ensures WeightedEvent(step, p).value <= 100
    ensures 0.0 <= p ==> 0 <= WeightedEvent(step, p).value
  {
    WeightTable(step);
  }

  /** The end of each step is the start of the next one: 10, 80 and 100. */
  lemma StepBoundaries()
    ensures WeightedProgress(Palette, 100.0) == WeightedProgress(Render, 0.0) == 10.0
    ensures WeightedProgress(Render, 100.0) == WeightedProgress(Optimize, 0.0) == 80.0
    ensures WeightedProgress(Optimize, 100.0) == WeightedProgress(Finished, 0.0) == 100.0
  {
    WeightTable(Palette);
    WeightTable(Render);
    WeightTable(Optimize);
    WeightTable(Finished);
  }

  /** Progress never goes back: within a step it grows with the percentage,
      and any point of a later step is at least any point of an earlier one. */
  lemma WeightedProgressMonotone(s1: Step, p1: real, s2: Step, p2: real)
    requires 0.0 <= p1 <= 100.0 && 0.0 <= p2 <= 100.0
    requires s1.Value() < s2.Value() || (s1 == s2 && p1 <= p2)
    ensures WeightedProgress(s1, p1) <= WeightedProgress(s2, p2)
  {
    WeightTable(s1);
    WeightTable(s2);
    WeightedProgressBounds(s1, p1);
    WeightedProgressBounds(s2, p2);
    if s1 == s2 {
      assert WeightOf(StepWeights, s1) as real * p1 <= WeightOf(StepWeights, s1) as real * p2;
    }
  }

  // ---------------------------------------------------------------------------
  // Harmless ffmpeg warnings

  /** The two patterns, matched without regard to case; the model lower-cases
      the line (ASCII letters only) and matches the lower-case patterns. */
  const SrgbWarning := "input frame is not in srgb"
  const RepeatHead := "last message repeated "
  const RepeatTail := " times"

  predicate HasAt(s: string, i: nat, pat: string) {
    i + |pat| <= |s| && s[i..i + |pat|] == pat
  }

  /** `Last message repeated \d+ times` matches at `i`: the digits after the
      head are a maximal run, since the tail starts with a blank. */
  predicate RepeatAt(s: string, i: nat) {
    && HasAt(s, i, RepeatHead)
    && var j := i + |RepeatHead|;
       var k := Engine.DigitRunEnd(s, j);
       k > j && HasAt(s, k, RepeatTail)
  }

  function FindFrom(s: string, i: nat, pat: string): (found: bool)
    requires i <= |s|
    ensures found <==> exists p :: i <= p <= |s| && HasAt(s, p, pat)
    decreases |s| - i
  {
    if HasAt(s, i, pat) then true
    else if i == |s| then false
    else FindFrom(s, i + 1, pat)
  }

  function FindRepeat(s: string, i: nat): (found: bool)
    requires i <= |s|
    ensures found <==> exists p :: i <= p <= |s| && RepeatAt(s, p)
    decreases |s| - i
  {
    if RepeatAt(s, i) then true
    else if i == |s| then false
    else FindRepeat(s, i + 1)
  }

  /** The denylist of `_process_stderr_line`: the line contains either
      pattern somewhere, in any case. */
  predicate IsBenignWarning(line: string) {
    var l := Lower(line);
    FindFrom(l, 0, SrgbWarning) || FindRepeat(l, 0)
  }

  /** A line shorter than the shorter pattern is never dropped. */
  lemma ShortLinesAreLogged(line: string)
    requires |line| < |SrgbWarning|
    ensures !IsBenignWarning(line)
  {
  }

  /** A line is dropped exactly when, lower-cased, it holds the sRGB warning
      or a repeat notice somewhere; any other line, whatever else it says, is
      logged. */
  lemma BenignWarningExactly(line: string)
    ensures var l := Lower(line);
      IsBenignWarning(line)
      <==> (exists p :: 0 <= p <= |l| && HasAt(l, p, SrgbWarning))
           || (exists p :: 0 <= p <= |l| && RepeatAt(l, p))
  {
  }

  lemma LowerConcat(a: string, b: string)
    ensures Lower(a + b) == Lower(a) + Lower(b)
  {
  }

  lemma LowerDigits(d: string)
    requires AllDigits(d)
    ensures Lower(d) == d
  {
  }

  lemma HasAtMiddle(x: string, pat: string, y: string)
    ensures HasAt(x + pat + y, |x|, pat)
  {
    assert (x + pat + y)[|x|..|x| + |pat|] == pat;
  }

  /** The repeat notice, already lower-cased, matches where it starts. */
  lemma RepeatAtNotice(b: string, d: string, a: string)
    requires |d| >= 1 && AllDigits(d)
    ensures RepeatAt(b + RepeatHead + d + RepeatTail + a, |b|)
  {
    var l := b + RepeatHead + d + RepeatTail + a;
    var j := |b| + |RepeatHead|;
    var k := j + |d|;
    HasAtMiddle(b, RepeatHead, d + RepeatTail + a);
    assert l == b + RepeatHead + (d + RepeatTail + a);
    assert l == (b + RepeatHead) + d + (RepeatTail + a);
    forall m | j <= m < k
      ensures IsDigit(l[m])
    {
      assert l[m] == d[m - j];
    }
    assert l[k] == RepeatTail[0];
    EngineDigitRunEndIs(l, j, k);
    HasAtMiddle(b + RepeatHead + d, RepeatTail, a);
  }

  /** ffmpeg's repeat notice is dropped, whatever the count and whatever
      surrounds it. */
  lemma RepeatNoticeIsBenign(before: string, n: nat, after: string)
    ensures IsBenignWarning(before + "Last message repeated " + NatToString(n) + " times" + after)
  {
    var d := NatToString(n);
    var line := before + "Last message repeated " + d + " times" + after;
    LowerConcat(before + "Last message repeated " + d + " times", after);
    LowerConcat(before + "Last message repeated " + d, " times");
    LowerConcat(before + "Last message repeated ", d);
    LowerConcat(before, "Last message repeated ");
    LowerDigits(d);
    assert Lower("Last message repeated ") == RepeatHead;
    assert Lower(" times") == RepeatTail;
    RepeatAtNotice(Lower(before), d, Lower(after));
    assert RepeatAt(Lower(line), |Lower(before)|);
  }

  lemma EngineDigitRunEndIs(s: string, j: nat, k: nat)
    requires j <= k <= |s|
    requires forall m :: j <= m < k ==> IsDigit(s[m])
    requires k < |s| ==> !IsDigit(s[k])
    ensures Engine.DigitRunEnd(s, j) == k
    decreases k - j
  {
    if j < k {
      EngineDigitRunEndIs(s, j + 1, k);
    }
  }

  // ---------------------------------------------------------------------------
  // Argument lists built by the worker

  /** The settings as a job record, to compare with the engine's plans. */
  function JobOf(s: ConverterSettings): Models.ConversionJob {
    Models.ConversionJob(s.inputFile, s.outputFile, s.fps, s.width, s.height, s.ditherSetting,
      s.speedMultiplier, s.paletteMode, s.webpQuality, s.webpCompression, s.webpLossless,
      s.loop, s.totalDuration)
  }

  /** The `.webp` test the worker repeats in several places. */
  predicate IsWebp(s: ConverterSettings) {
    Engine.IsWebpOutput(s.outputFile)
  }

  /** The worker's own filter chain: frame rate, speed, and a scale stage that
      is always present, even for -1:-1. */
  function WorkerChain(s: ConverterSettings): seq<string> {
    Engine.FpsStage(JobOf(s)) + Engine.SpeedStage(JobOf(s))
    + ["scale=" + IntToString(s.width) + ":" + IntToString(s.height) + ":flags=lanczos"]
  }

  /** The palette written into the temporary directory. */
  function PaletteFile(dir: string): string {
    dir + "/palette.png"
  }

  /** The palette run's `-vf` value: the worker's chain, then `format=rgb24`
      and `palettegen` with the settings' mode. */
  function WorkerPaletteFilter(s: ConverterSettings): string {
    Join(WorkerChain(s) + ["format=rgb24", "palettegen=stats_mode=" + s.paletteMode], ",")
  }

  /** The WebP run's `-vf` value: the worker's chain, then `format=rgba`. */
  function WorkerWebpFilter(s: ConverterSettings): string {
    Join(WorkerChain(s) + ["format=rgba"], ",")
  }

  /** `_execute_palette_generation`'s arguments: one frame, written to the palette file. */
  function PaletteArgs(s: ConverterSettings, pal: string): seq<string> {
    ["-v", "warning", "-i", s.inputFile, "-vf", WorkerPaletteFilter(s),
     "-frames:v", "1", "-update", "1", "-y", pal]
  }

  /** The render's filter graph: the chain labelled `[x]`, without an input
      label, feeding `paletteuse`. */
  function RenderFilter(s: ConverterSettings): string {
    Join(WorkerChain(s), ",") + "[x]" + ";[x][1:v]" + Engine.PaletteUse(s.ditherSetting)
  }

  /** `_execute_gif_rendering`'s arguments; a `.webp` output gets a second `-loop 0`. */
  function RenderArgs(s: ConverterSettings, pal: string): seq<string> {
    Engine.WithProgress(JobOf(s),
      ["-v", "warning", "-i", s.inputFile, "-i", pal, "-filter_complex", RenderFilter(s)]
      + ["-loop", Engine.LoopValue(s.loop)]
      + (if IsWebp(s) then ["-loop", "0"] else [])
      + ["-y", s.outputFile])
  }

  /** `_execute_gif_optimization`'s arguments. */
  function OptimizeArgs(s: ConverterSettings): seq<string> {
    ["-O3", if s.loop then "--loopcount=0" else "--no-loopcount", s.outputFile, "-o", s.outputFile]
  }

  /** `_run_webp_conversion`'s arguments: `-loop 0` right after the filter,
      the quality flags, then the loop flag of the settings. */
  function WebpArgs(s: ConverterSettings): seq<string> {
    Engine.WithProgress(JobOf(s),
      ["-v", "warning", "-i", s.inputFile, "-vf", WorkerWebpFilter(s), "-loop", "0"]
      + Engine.WebpQualityArgs(JobOf(s))
      + ["-loop", Engine.LoopValue(s.loop)]
      + ["-y", s.outputFile])
  }

  /** Where the worker's chain and the engine's agree: frame-rate and speed
      stages alike; the same scale stage when exactly one side is -1; and for
      -1:-1 the worker still scales where the engine adds nothing. With both
      sides fixed the engine scales to cover and crops, the worker does not. */
  lemma WorkerChainVsEngine(s: ConverterSettings)
    ensures var j := JobOf(s); var scale := WorkerChain(s)[|WorkerChain(s)| - 1];
      && |WorkerChain(s)| >= 1
      && WorkerChain(s)[..|WorkerChain(s)| - 1] == Engine.FpsStage(j) + Engine.SpeedStage(j)
      && scale == "scale=" + IntToString(s.width) + ":" + IntToString(s.height) + ":flags=lanczos"
      && ((s.width == -1) != (s.height == -1) ==> WorkerChain(s) == Engine.BaseFilters(j))
      && (s.width == -1 && s.height == -1 ==>
            Engine.BaseFilters(j) == Engine.FpsStage(j) + Engine.SpeedStage(j))
  {
    var j := JobOf(s);
    var c := WorkerChain(s);
    assert c[..|c| - 1] == Engine.FpsStage(j) + Engine.SpeedStage(j);
  }

  /** The worker's optimisation arguments are exactly the engine's gifsicle plan. */
  lemma OptimizeArgsMatchEngine(s: ConverterSettings, tools: ToolPaths)
    ensures OptimizeArgs(s) == Engine.BuildGifsiclePlan(JobOf(s), tools).args
  {
  }

  /** The worker's render graph is the engine's without the `[0:v]` input
      label, whenever the two chains agree. */
  lemma RenderFilterVsEngine(s: ConverterSettings)
    requires WorkerChain(s) == Engine.BaseFilters(JobOf(s))
    ensures "[0:v]" + RenderFilter(s) == Engine.RenderFilterComplex(JobOf(s))
  {
    var j := Join(WorkerChain(s), ",");
    var u := Engine.PaletteUse(s.ditherSetting);
    assert RenderFilter(s) == j + "[x]" + ";[x][1:v]" + u;
    assert Engine.RenderInputs(JobOf(s)) == "[0:v]" + j + "[x];[x][1:v]";
    LabelRegroup(j, u);
  }

  /** The render graph's text regrouped, with the chain and `paletteuse` left abstract. */
  lemma LabelRegroup(j: string, u: string)
    ensures "[0:v]" + (j + "[x]" + ";[x][1:v]" + u) == ("[0:v]" + j + "[x];[x][1:v]") + u
  {
  }

  /** The worker's palette arguments are the engine's palette plan with its
      own filter in place of the engine's, and `-frames:v 1` inserted after
      it; the two filters are the same text whenever the chains agree. */
  lemma PaletteArgsVsEngine(s: ConverterSettings, tools: ToolPaths, pal: string)
    ensures var e := Engine.BuildPalettePlan(JobOf(s), tools, pal).args;
      && |e| == 10
      && PaletteArgs(s, pal) == e[..5] + [WorkerPaletteFilter(s), "-frames:v", "1"] + e[6..]
      && (WorkerChain(s) == Engine.BaseFilters(JobOf(s)) ==> e[5] == WorkerPaletteFilter(s))
  {
    FramesInserted(s.inputFile, WorkerPaletteFilter(s), Engine.PaletteFilter(JobOf(s)), pal);
  }

  /** The palette lists with the texts left abstract. */
  lemma FramesInserted(input: string, filter: string, engineFilter: string, pal: string)
    ensures var e := ["-v", "warning", "-i", input, "-vf", engineFilter, "-update", "1", "-y", pal];
      ["-v", "warning", "-i", input, "-vf", filter, "-frames:v", "1", "-update", "1", "-y", pal]
        == e[..5] + [filter, "-frames:v", "1"] + e[6..]
  {
  }

  /** The worker's render arguments are the engine's render plan with its own
      graph in place of the engine's (related by `RenderFilterVsEngine`), and,
      for a `.webp` output, a second `-loop 0` before `-y <output>`. */
  lemma RenderArgsVsEngine(s: ConverterSettings, tools: ToolPaths, pal: string)
    ensures var e := Engine.BuildGifRenderPlan(JobOf(s), tools, pal).args; var n := |e|;
      && n >= 12
      && RenderArgs(s, pal)
         == e[..n - 5] + [RenderFilter(s)] + e[n - 4..n - 2] + (if IsWebp(s) then ["-loop", "0"] else []) + e[n - 2..]
  {
    var j := JobOf(s);
    var pre: seq<string> := if Engine.HasKnownDuration(j) then ["-progress", "pipe:1"] else [];
    var extra: seq<string> := if IsWebp(s) then ["-loop", "0"] else [];
    EngineFacts.GifRenderPlanArgs(j, tools, pal);
    assert RenderArgs(s, pal)
      == pre + (["-v", "warning", "-i", s.inputFile, "-i", pal, "-filter_complex", RenderFilter(s)]
                + ["-loop", Engine.LoopValue(s.loop)] + extra + ["-y", s.outputFile]);
    GraphReplaced(pre, s.inputFile, pal, RenderFilter(s), Engine.RenderFilterComplex(j),
                  Engine.LoopValue(s.loop), extra, s.outputFile);
  }

  /** The render lists with the texts left abstract. */
  lemma GraphReplaced(pre: seq<string>, input: string, pal: string, graph: string, engineGraph: string,
                      loop: string, extra: seq<string>, output: string)
    ensures var e := pre + ["-v", "warning", "-i", input, "-i", pal, "-filter_complex", engineGraph,
                            "-loop", loop, "-y", output];
      var n := |e|;
      && n >= 12
      && pre + (["-v", "warning", "-i", input, "-i", pal, "-filter_complex", graph]
                + ["-loop", loop] + extra + ["-y", output])
         == e[..n - 5] + [graph] + e[n - 4..n - 2] + extra + e[n - 2..]
  {
    var e := pre + ["-v", "warning", "-i", input, "-i", pal, "-filter_complex", engineGraph,
                    "-loop", loop, "-y", output];
    var n := |e|;
    assert e[..n - 5] == pre + ["-v", "warning", "-i", input, "-i", pal, "-filter_complex"];
    assert e[n - 4..n - 2] == ["-loop", loop];
    assert e[n - 2..] == ["-y", output];
  }

  /** The worker's WebP arguments are the engine's WebP plan with its own
      filter in place of the engine's and `-loop 0` inserted after it; the
      two filters are the same text whenever the chains agree. */
  lemma WebpArgsVsEngine(s: ConverterSettings, tools: ToolPaths)
    ensures var e := Engine.BuildWebpPlan(JobOf(s), tools).args;
      var p := if Engine.HasKnownDuration(JobOf(s)) then 2 else 0;
      && |e| >= p + 6
      && WebpArgs(s) == e[..p + 5] + [WorkerWebpFilter(s), "-loop", "0"] + e[p + 6..]
      && (WorkerChain(s) == Engine.BaseFilters(JobOf(s)) ==> e[p + 5] == WorkerWebpFilter(s))
  {
    var j := JobOf(s);
    var pre: seq<string> := if Engine.HasKnownDuration(j) then ["-progress", "pipe:1"] else [];
    var core, q, l, y := Engine.WebpCore(j), Engine.WebpQualityArgs(j), ["-loop", Engine.LoopValue(s.loop)], ["-y", s.outputFile];
    var wcore := ["-v", "warning", "-i", s.inputFile, "-vf", WorkerWebpFilter(s), "-loop", "0"];
    var e := Engine.BuildWebpPlan(j, tools).args;
    EngineFacts.WebpPlanParts(j, tools);
    Regroup(pre, core, q, l, y);
    Regroup(pre, wcore, q, l, y);
    assert e == pre + core + (q + (l + y));
    assert WebpArgs(s) == pre + wcore + (q + (l + y));
    FilterReplaced(pre, s.inputFile, WorkerWebpFilter(s), Engine.WebpFilter(j), q + (l + y));
    if WorkerChain(s) == Engine.BaseFilters(j) {
      assert WorkerWebpFilter(s) == Engine.WebpFilter(j);
    }
  }

  lemma Regroup(pre: seq<string>, core: seq<string>, q: seq<string>, l: seq<string>, y: seq<string>)
    ensures pre + core + q + (l + y) == pre + core + (q + (l + y))
    ensures pre + (core + q + l + y) == pre + core + (q + (l + y))
  {
  }

  /** The WebP lists with the texts left abstract. */
  lemma FilterReplaced(pre: seq<string>, input: string, filter: string, engineFilter: string, tail: seq<string>)
    ensures var e := pre + ["-v", "warning", "-i", input, "-vf", engineFilter] + tail;
      && |e| >= |pre| + 6 && e[|pre| + 5] == engineFilter
      && pre + ["-v", "warning", "-i", input, "-vf", filter, "-loop", "0"] + tail
         == e[..|pre| + 5] + [filter, "-loop", "0"] + e[|pre| + 6..]
  {
    var e := pre + ["-v", "warning", "-i", input, "-vf", engineFilter] + tail;
    assert e[..|pre| + 5] == pre + ["-v", "warning", "-i", input, "-vf"];
    assert e[|pre| + 6..] == tail;
  }

  /** A render to `.webp` holds `-loop` twice, any other render once (when
      no path is itself the text `-loop`). */
  lemma RenderArgsLoops(s: ConverterSettings, pal: string)
    requires s.inputFile != "-loop" && s.outputFile != "-loop" && pal != "-loop"
    ensures Count(RenderArgs(s, pal), "-loop") == if IsWebp(s) then 2 else 1
  {
    var j := JobOf(s);
    var pre: seq<string> := if Engine.HasKnownDuration(j) then ["-progress", "pipe:1"] else [];
    var extra: seq<string> := if IsWebp(s) then ["-loop", "0"] else [];
    RenderFilterNotLoop(s);
    LoopPair("0");
    assert Count(extra, "-loop") == if IsWebp(s) then 1 else 0;
    RenderLoopsCount(pre, s.inputFile, pal, RenderFilter(s), Engine.LoopValue(s.loop), extra, s.outputFile);
    assert RenderArgs(s, pal)
      == pre + (["-v", "warning", "-i", s.inputFile, "-i", pal, "-filter_complex", RenderFilter(s)]
                + ["-loop", Engine.LoopValue(s.loop)] + extra + ["-y", s.outputFile]);
  }

  /** The render list's `-loop` count, with the texts left abstract. */
  lemma RenderLoopsCount(pre: seq<string>, input: string, pal: string, graph: string,
                         loop: string, extra: seq<string>, output: string)
    requires pre == [] || pre == ["-progress", "pipe:1"]
    requires input != "-loop" && pal != "-loop" && graph != "-loop" && loop != "-loop" && output != "-loop"
    ensures Count(pre + (["-v", "warning", "-i", input, "-i", pal, "-filter_complex", graph]
                         + ["-loop", loop] + extra + ["-y", output]), "-loop")
            == 1 + Count(extra, "-loop")
  {
    var core := ["-v", "warning", "-i", input, "-i", pal, "-filter_complex", graph];
    NoLoopBefore(pre, core);
    LoopsAfter(pre + core, loop, extra, output);
    assert pre + (core + ["-loop", loop] + extra + ["-y", output])
      == (pre + core) + ["-loop", loop] + extra + ["-y", output];
  }

  lemma RenderFilterNotLoop(s: ConverterSettings)
    ensures RenderFilter(s) != "-loop"
  {
    assert |RenderFilter(s)| > 5;
  }

  lemma NoLoopBefore(pre: seq<string>, core: seq<string>)
    requires pre == [] || pre == ["-progress", "pipe:1"]
    requires "-loop" !in core
    ensures "-loop" !in pre + core
  {
  }

  /** The WebP run holds `-loop` twice (when no path is itself the text `-loop`). */
  lemma WebpArgsLoops(s: ConverterSettings)
    requires s.inputFile != "-loop" && s.outputFile != "-loop"
    ensures Count(WebpArgs(s), "-loop") == 2
  {
    var j := JobOf(s);
    var pre: seq<string> := if Engine.HasKnownDuration(j) then ["-progress", "pipe:1"] else [];
    var wf := WorkerWebpFilter(s);
    EngineFacts.JoinLast(WorkerChain(s), "format=rgba", ",");
    assert wf[|wf| - 1] == 'a';
    EngineFacts.QualityArgsNoLoop(j);
    WebpLoopsCount(pre, s.inputFile, wf, Engine.WebpQualityArgs(j), Engine.LoopValue(s.loop), s.outputFile);
    assert WebpArgs(s)
      == pre + (["-v", "warning", "-i", s.inputFile, "-vf", wf, "-loop", "0"] + Engine.WebpQualityArgs(j)
                + ["-loop", Engine.LoopValue(s.loop)] + ["-y", s.outputFile]);
  }

  /** The WebP list's `-loop` count, with the texts left abstract. */
  lemma WebpLoopsCount(pre: seq<string>, input: string, filter: string, q: seq<string>,
                       loop: string, output: string)
    requires pre == [] || pre == ["-progress", "pipe:1"]
    requires input != "-loop" && filter != "-loop" && "-loop" !in q && loop != "-loop" && output != "-loop"
    ensures Count(pre + (["-v", "warning", "-i", input, "-vf", filter, "-loop", "0"] + q
                         + ["-loop", loop] + ["-y", output]), "-loop") == 2
  {
    var head := ["-v", "warning", "-i", input, "-vf", filter];
    var lp := ["-loop", loop];
    NoLoopBefore(pre, head);
    LoopsAfter(pre + head, "0", q + lp, output);
    CountAppend(q, lp, "-loop");
    CountAbsent(q, "-loop");
    LoopPair(loop);
    assert head + ["-loop", "0"] == ["-v", "warning", "-i", input, "-vf", filter, "-loop", "0"];
    assert pre + (head + ["-loop", "0"] + q + lp + ["-y", output])
      == (pre + head) + ["-loop", "0"] + (q + lp) + ["-y", output];
  }

  lemma LoopPair(value: string)
    requires value != "-loop"
    ensures Count(["-loop", value], "-loop") == 1
  {
    assert ["-loop", value] == ["-loop"] + [value];
    CountAppend(["-loop"], [value], "-loop");
  }

  /** Counting `-loop` over a list without it, one loop flag with its value,
      more arguments and the output pair. */
  lemma LoopsAfter(head: seq<string>, value: string, extra: seq<string>, output: string)
    requires "-loop" !in head && value != "-loop" && output != "-loop"
    ensures Count(head + ["-loop", value] + extra + ["-y", output], "-loop") == 1 + Count(extra, "-loop")
  {
    var t := "-loop";
    CountAppend(head + ["-loop", value] + extra, ["-y", output], t);
    CountAppend(head + ["-loop", value], extra, t);
    CountAppend(head, ["-loop", value], t);
    CountAbsent(head, t);
    CountAbsent(["-y", output], t);
    LoopPair(value);
  }

  // ---------------------------------------------------------------------------
  // What the worker reports

  /** Why a conversion failed. */
  datatype Failure =
    | TempDirFailed
    | PaletteMissing
    | StartFailed(prefix: LogPrefix, reason: string)
    | ExitedWithCode(prefix: LogPrefix, code: int)
    | ProcessFailed(error: ProcessError)

  /** The result carried by the finished signal. */
  datatype Outcome = Succeeded(output: string, frames: Option<int>) | Failed(cause: Failure) | Cancelled

  /** The worker's signals, with their payloads as values rather than message
      text: a progress value (-1 for the indeterminate bar), a logged
      standard-error or optimiser line, the finished signal, and the removal
      of the temporary directory. */
  datatype Event =
    | Progress(value: int)
    | StderrLog(prefix: LogPrefix, text: string)
    | OptimizerLog(prefix: LogPrefix, text: string)
    | Done(outcome: Outcome)
    | TempCleanup(dir: string)

  /** No reported progress value exceeds 100. */
  ghost predicate ProgressCapped(events: seq<Event>) {
    forall i :: 0 <= i < |events| && events[i].Progress? ==> events[i].value <= 100
  }

  lemma CappedConcat(a: seq<Event>, b: seq<Event>)
    requires ProgressCapped(a) && ProgressCapped(b)
    ensures ProgressCapped(a + b)
  {
    forall i | 0 <= i < |a + b| && (a + b)[i].Progress?
      ensures (a + b)[i].value <= 100
    {
      if i >= |a| {
        assert (a + b)[i] == b[i - |a|];
      }
    }
  }

  function Min(a: real, b: real): real {
    if a <= b then a else b
  }

  /** What one line of a process's standard output leads to: the new frame
      count, the signals sent, and whether the handler stopped on an
      attribute that was never set. */
  datatype LineResult = LineResult(frames: int, emitted: seq<Event>, aborted: bool)

  /** The ffmpeg render tag's handling of a line, given the line's `frame=`
      value `fm` and its `out_time_ms=` value `tm` (the latter only looked at
      when the duration is known). */
  function RenderLine(s: ConverterSettings, step: Step, estimate: Option<int>, frames: int,
                      fm: Option<nat>, tm: Option<nat>): LineResult
  {
    var fc := if fm.Some? && fm.value > frames then fm.value else frames;
    if Truthy(s.totalDuration) then
      if tm.Some? then
        var pct := Min(100.0, tm.value as real / (s.totalDuration.value * 1000000.0) * 100.0);
        LineResult(fc, [WeightedEvent(step, pct)], false)
      else LineResult(fc, [], false)
    else if fm.None? then LineResult(fc, [], false)
    else if estimate.None? then LineResult(fc, [], true)
    else if estimate.value != 0 then
      var pct := Min(100.0, fc as real / estimate.value as real * 100.0);
      LineResult(fc, [WeightedEvent(step, pct)], false)
    else LineResult(fc, [Progress(-1)], false)
  }

  /** `_process_stdout_line`. For the ffmpeg tag, a `frame=` value above the
      count raises it; with a known duration an `out_time_ms=` value reports
      the share of the duration (capped at 100); without one a frame value
      reports the share of the estimated frame total (capped at 100) when there
      is a non-zero estimate, the indeterminate progress (-1) when the estimate
      is 0, and stops the handler when no estimate was ever set. For the
      gifsicle tag a non-blank line is logged, stripped. */
  function StdoutLine(s: ConverterSettings, step: Step, estimate: Option<int>, frames: int,
                      line: string, prefix: LogPrefix): LineResult
  {
    match prefix
    case FfmpegRender =>
      RenderLine(s, step, estimate, frames,
                 Engine.Search(line, "frame=", true), Engine.Search(line, "out_time_ms=", false))
    case GifsicleOptimize =>
      var t := Strip(line);
      LineResult(frames, if t != "" then [OptimizerLog(prefix, t)] else [], false)
    case FfmpegPalette =>
      LineResult(frames, [], false)
  }

  /** The handler's loop over the pieces of the buffered text: empty pieces
      are skipped, and the loop ends early when a line stops the handler. */
  function StdoutLines(s: ConverterSettings, step: Step, estimate: Option<int>, frames: int,
                       lines: seq<string>, prefix: LogPrefix): LineResult
    decreases |lines|, 1
  {
    if lines == [] then LineResult(frames, [], false)
    else if lines[0] == "" then StdoutLines(s, step, estimate, frames, lines[1..], prefix)
    else LineThenRest(s, step, estimate, frames, lines, prefix)
  }

  /** A non-empty first piece handled as a line, then, unless that line stops
      the handler, the rest of the pieces. */
  function LineThenRest(s: ConverterSettings, step: Step, estimate: Option<int>, frames: int,
                        lines: seq<string>, prefix: LogPrefix): LineResult
    requires lines != []
    decreases |lines|, 0
  {
    var r := StdoutLine(s, step, estimate, frames, lines[0], prefix);
    if r.aborted then r
    else
      var rest := StdoutLines(s, step, estimate, r.frames, lines[1..], prefix);
      LineResult(rest.frames, r.emitted + rest.emitted, rest.aborted)
  }

  /** The rest of a fold, after the signals `sent` were already sent. */
  function Resume(sent: seq<Event>, rest: LineResult): LineResult {
    LineResult(rest.frames, sent + rest.emitted, rest.aborted)
  }

  /** `StdoutLines` on the pieces from position `i` on, read by index. */
  function StdoutLinesFrom(s: ConverterSettings, step: Step, estimate: Option<int>, frames: int,
                           lines: seq<string>, i: nat, prefix: LogPrefix): LineResult
    requires i <= |lines|
    decreases |lines| - i, 1
  {
    if i == |lines| then LineResult(frames, [], false)
    else if lines[i] == "" then StdoutLinesFrom(s, step, estimate, frames, lines, i + 1, prefix)
    else LineThenRestFrom(s, step, estimate, frames, lines, i, prefix)
  }

  /** `LineThenRest` at position `i`. */
  function LineThenRestFrom(s: ConverterSettings, step: Step, estimate: Option<int>, frames: int,
                            lines: seq<string>, i: nat, prefix: LogPrefix): LineResult
    requires i < |lines|
    decreases |lines| - i, 0
  {
    var r := StdoutLine(s, step, estimate, frames, lines[i], prefix);
    if r.aborted then r
    else
      var rest := StdoutLinesFrom(s, step, estimate, r.frames, lines, i + 1, prefix);
      LineResult(rest.frames, r.emitted + rest.emitted, rest.aborted)
  }

  lemma {:induction false} StdoutLinesFromSuffix(s: ConverterSettings, step: Step, estimate: Option<int>, frames: int,
                                                 lines: seq<string>, i: nat, prefix: LogPrefix)
    requires i <= |lines|
    ensures StdoutLinesFrom(s, step, estimate, frames, lines, i, prefix)
      == StdoutLines(s, step, estimate, frames, lines[i..], prefix)
    decreases |lines| - i
  {
    if i < |lines| {
      assert lines[i..][0] == lines[i] && lines[i..][1..] == lines[i + 1..];
      StdoutLinesCons(s, step, estimate, frames, lines[i..], prefix);
      var r := StdoutLine(s, step, estimate, frames, lines[i], prefix);
      StdoutLinesFromSuffix(s, step, estimate, frames, lines, i + 1, prefix);
      StdoutLinesFromSuffix(s, step, estimate, r.frames, lines, i + 1, prefix);
    } else {
      assert lines[i..] == [];
    }
  }

  /** The handler's loop, having sent `sent` so far, ends in `total` once it
      handles the pieces from position `i` on, starting from `frames`. */
  predicate ResumesTo(total: LineResult, sent: seq<Event>, s: ConverterSettings, step: Step,
                      estimate: Option<int>, frames: int, pieces: seq<string>, i: nat, prefix: LogPrefix)
    requires i <= |pieces|
  {
    total == Resume(sent, StdoutLinesFrom(s, step, estimate, frames, pieces, i, prefix))
  }

  /** One turn of the handler's loop at position `i`: a fold resumed after
      `sent` continues with piece `i` as `StdoutLinesFrom` handles it. */
  lemma ResumeAt(s: ConverterSettings, step: Step, estimate: Option<int>, frames: int,
                 pieces: seq<string>, i: nat, prefix: LogPrefix, sent: seq<Event>, total: LineResult)
    requires i < |pieces|
    requires ResumesTo(total, sent, s, step, estimate, frames, pieces, i, prefix)
    ensures var r := StdoutLine(s, step, estimate, frames, pieces[i], prefix);
      if pieces[i] == "" then ResumesTo(total, sent, s, step, estimate, frames, pieces, i + 1, prefix)
      else if r.aborted then total == LineResult(r.frames, sent + r.emitted, true)
      else ResumesTo(total, sent + r.emitted, s, step, estimate, r.frames, pieces, i + 1, prefix)
  {
    var r := StdoutLine(s, step, estimate, frames, pieces[i], prefix);
    var whole := StdoutLinesFrom(s, step, estimate, frames, pieces, i, prefix);
    if pieces[i] != "" {
      assert whole == LineThenRestFrom(s, step, estimate, frames, pieces, i, prefix);
      if !r.aborted {
        ResumeAppend(sent, r.emitted, StdoutLinesFrom(s, step, estimate, r.frames, pieces, i + 1, prefix));
      }
    }
  }

  lemma ResumeAppend(sent: seq<Event>, more: seq<Event>, rest: LineResult)
    ensures Resume(sent, LineResult(rest.frames, more + rest.emitted, rest.aborted)) == Resume(sent + more, rest)
  {
    assert sent + (more + rest.emitted) == (sent + more) + rest.emitted;
  }

  /** The fold, one piece at a time. */
  lemma StdoutLinesCons(s: ConverterSettings, step: Step, estimate: Option<int>, frames: int,
                        lines: seq<string>, prefix: LogPrefix)
    requires lines != []
    ensures var r := StdoutLine(s, step, estimate, frames, lines[0], prefix);
      var rest := StdoutLines(s, step, estimate, r.frames, lines[1..], prefix);
      StdoutLines(s, step, estimate, frames, lines, prefix)
        == if lines[0] == "" then StdoutLines(s, step, estimate, frames, lines[1..], prefix)
           else if r.aborted then r
           else LineResult(rest.frames, r.emitted + rest.emitted, rest.aborted)
  {
  }

  /** One line: the frame count becomes the larger of the count and the
      line's `frame=` value (for the ffmpeg tag), and every percentage
      reported is at most 100. */
  lemma StdoutLineEffect(s: ConverterSettings, step: Step, estimate: Option<int>, frames: int,
                         line: string, prefix: LogPrefix)
    ensures var r := StdoutLine(s, step, estimate, frames, line, prefix);
      var fm := Engine.Search(line, "frame=", true);
      && r.frames >= frames
      && r.frames == (if prefix == FfmpegRender && fm.Some? && fm.value > frames then fm.value else frames)
      && ProgressCapped(r.emitted)
      && |r.emitted| <= 1
      && (forall i :: 0 <= i < |r.emitted| ==> r.emitted[i].Progress? || r.emitted[i].OptimizerLog?)
  {
    if prefix == FfmpegRender {
      RenderLineEffect(s, step, estimate, frames,
                       Engine.Search(line, "frame=", true), Engine.Search(line, "out_time_ms=", false));
    }
  }

  /** The render tag's part of `StdoutLineEffect`, for any searched values. */
  lemma RenderLineEffect(s: ConverterSettings, step: Step, estimate: Option<int>, frames: int,
                         fm: Option<nat>, tm: Option<nat>)
    ensures var r := RenderLine(s, step, estimate, frames, fm, tm);
      && r.frames == (if fm.Some? && fm.value > frames then fm.value else frames)
      && ProgressCapped(r.emitted)
      && |r.emitted| <= 1
      && (forall i :: 0 <= i < |r.emitted| ==> r.emitted[i].Progress?)
  {
    var fc := if fm.Some? && fm.value > frames then fm.value else frames;
    if Truthy(s.totalDuration) && tm.Some? {
      CappedWeighted(step, Min(100.0, tm.value as real / (s.totalDuration.value * 1000000.0) * 100.0));
    } else if !Truthy(s.totalDuration) && fm.Some? && estimate.Some? && estimate.value != 0 {
      CappedWeighted(step, Min(100.0, fc as real / estimate.value as real * 100.0));
    }
  }

  /** A single weighted percentage of at most 100 is capped. */
  lemma CappedWeighted(step: Step, pct: real)
    requires pct <= 100.0
    ensures ProgressCapped([WeightedEvent(step, pct)])
  {
    WeightedEventBounds(step, pct);
  }

  /** A whole chunk: the frame count never goes down and no percentage
      exceeds 100. */
  lemma {:induction false} StdoutLinesEffect(s: ConverterSettings, step: Step, estimate: Option<int>,
                                            frames: int, lines: seq<string>, prefix: LogPrefix)
    ensures var r := StdoutLines(s, step, estimate, frames, lines, prefix);
      && r.frames >= frames && ProgressCapped(r.emitted)
      && (forall i :: 0 <= i < |r.emitted| ==> r.emitted[i].Progress? || r.emitted[i].OptimizerLog?)
    decreases |lines|
  {
    if lines != [] {
      if lines[0] == "" {
        StdoutLinesEffect(s, step, estimate, frames, lines[1..], prefix);
      } else {
        var r := StdoutLine(s, step, estimate, frames, lines[0], prefix);
        StdoutLineEffect(s, step, estimate, frames, lines[0], prefix);
        if !r.aborted {
          StdoutLinesEffect(s, step, estimate, r.frames, lines[1..], prefix);
          var rest := StdoutLines(s, step, estimate, r.frames, lines[1..], prefix);
          CappedConcat(r.emitted, rest.emitted);
        }
      }
    }
  }

  /** Without a known duration the percentage of the frame estimate is never
      reported, as long as a non-zero estimate implies a known duration (which
      is how the conversion sets it up): a `frame=` line reports indeterminate
      progress or stops the handler. */
  lemma FrameShareNeverReported(s: ConverterSettings, step: Step, estimate: Option<int>, frames: int,
                                line: string)
    requires !Truthy(s.totalDuration)
    requires estimate.Some? && estimate.value != 0 ==> Truthy(s.totalDuration)
    ensures var r := StdoutLine(s, step, estimate, frames, line, FfmpegRender);
      forall e :: e in r.emitted ==> e == Progress(-1)
    ensures var r := StdoutLine(s, step, estimate, frames, line, FfmpegRender);
      r.aborted <==> (estimate.None? && Engine.Search(line, "frame=", true).Some?)
  {
  }

  /** The idle step has no weight and nothing before it, so its weighted
      progress is 0 whatever the percentage. */
  lemma IdleWeightedEvent(p: real)
    ensures WeightedEvent(Idle, p) == Progress(0)
  {
    WeightTable(Idle);
  }

  /** Every progress value is 0, or -1 for indeterminate progress. */
  predicate ZeroOrBusy(events: seq<Event>) {
    forall i :: 0 <= i < |events| && events[i].Progress? ==> events[i].value == 0 || events[i].value == -1
  }

  lemma ZeroOrBusyConcat(a: seq<Event>, b: seq<Event>)
    requires ZeroOrBusy(a) && ZeroOrBusy(b)
    ensures ZeroOrBusy(a + b)
  {
    forall i | 0 <= i < |a + b| && (a + b)[i].Progress?
      ensures (a + b)[i].value == 0 || (a + b)[i].value == -1
    {
      if i >= |a| {
        assert (a + b)[i] == b[i - |a|];
      }
    }
  }

  lemma IdleLineProgress(s: ConverterSettings, estimate: Option<int>, frames: int, line: string, prefix: LogPrefix)
    ensures ZeroOrBusy(StdoutLine(s, Idle, estimate, frames, line, prefix).emitted)
  {
    forall p: real
      ensures WeightedEvent(Idle, p) == Progress(0)
    {
      IdleWeightedEvent(p);
    }
  }

  /** The WebP conversion reads ffmpeg's progress with the step still idle:
      every progress value its standard output leads to is 0 (or -1 for a
      frame count without a duration), so the bar does not move until the
      conversion ends. */
  lemma {:induction false} IdleProgressIsZero(s: ConverterSettings, estimate: Option<int>, frames: int,
                                             lines: seq<string>, prefix: LogPrefix)
    ensures ZeroOrBusy(StdoutLines(s, Idle, estimate, frames, lines, prefix).emitted)
    decreases |lines|
  {
    if lines != [] {
      StdoutLinesCons(s, Idle, estimate, frames, lines, prefix);
      if lines[0] == "" {
        IdleProgressIsZero(s, estimate, frames, lines[1..], prefix);
      } else {
        var r := StdoutLine(s, Idle, estimate, frames, lines[0], prefix);
        IdleLineProgress(s, estimate, frames, lines[0], prefix);
        if !r.aborted {
          IdleProgressIsZero(s, estimate, r.frames, lines[1..], prefix);
          ZeroOrBusyConcat(r.emitted, StdoutLines(s, Idle, estimate, r.frames, lines[1..], prefix).emitted);
        }
      }
    }
  }

  /** `_on_process_ready_read_stderr`'s loop: each non-empty piece that is not
      a harmless warning is logged, stripped, with the prefix. */
  function StderrLogs(prefix: LogPrefix, lines: seq<string>): seq<Event> {
    if lines == [] then []
    else
      var l := Last(lines);
      StderrLogs(prefix, AllButLast(lines))
      + (if l != "" && !IsBenignWarning(l) then [StderrLog(prefix, Strip(l))] else [])
  }

  /** Exactly the other lines are logged: every entry comes from a non-empty
      line that is not a harmless warning, and every such line is logged. */
  lemma {:induction false} StderrLogsExact(prefix: LogPrefix, lines: seq<string>)
    ensures forall e :: e in StderrLogs(prefix, lines) ==>
      exists l :: l in lines && l != "" && !IsBenignWarning(l) && e == StderrLog(prefix, Strip(l))
    ensures forall l :: l in lines && l != "" && !IsBenignWarning(l) ==>
      StderrLog(prefix, Strip(l)) in StderrLogs(prefix, lines)
    decreases |lines|
  {
    if lines != [] {
      var init := AllButLast(lines);
      StderrLogsExact(prefix, init);
      assert lines == init + [Last(lines)];
      forall l | l in lines
        ensures l in init || l == Last(lines)
      {
      }
    }
  }
}
