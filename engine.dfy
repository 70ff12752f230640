/** The command-plan builder (engine.py): pure functions from a conversion
    job to the argument lists of the palette, render and optimise steps, the
    scanner for ffmpeg's progress lines and the frame-count estimate. */
module Engine {
  import opened Options
  import opened Strings
  import opened Models

  /** `is_webp_output`: the output is WebP exactly when the lower-cased path
      text ends in ".webp". */
  function IsWebpOutput(path: string): (r: bool)
    ensures r <==> |path| >= 5 && Lower(path[|path| - 5..]) == ".webp"
  {
    assert |path| >= 5 ==> Lower(path)[|path| - 5..] == Lower(path[|path| - 5..]);
    EndsWith(Lower(path), ".webp")
  }

  /** The speed stage is emitted for a non-zero multiplier other than 1.0. */
  predicate SpeedActive(job: ConversionJob) {
    job.speedMultiplier.value != 0.0 && job.speedMultiplier.value != 1.0
  }

  /** `_add_scale_crop`: nothing for -1:-1; one aspect-preserving Lanczos scale
      when exactly one side is -1; scale-to-cover then a centred crop when both
      sides are fixed. */
  function ScaleCrop(width: int, height: int): (r: seq<string>)
    ensures width == -1 && height == -1 ==> r == []
    ensures (width == -1) != (height == -1) ==>
      r == ["scale=" + IntToString(width) + ":" + IntToString(height) + ":flags=lanczos"]
    ensures width != -1 && height != -1 ==>
      |r| == 2
      && r[0] == "scale=" + IntToString(width) + ":" + IntToString(height)
                 + ":flags=lanczos:force_original_aspect_ratio=increase"
      && r[1] == "crop=" + IntToString(width) + ":" + IntToString(height)
                 + ":(iw-" + IntToString(width) + ")/2:(ih-" + IntToString(height) + ")/2"
  {
    var w := IntToString(width);
    var h := IntToString(height);
    if width == -1 && height == -1 then []
    else if width == -1 || height == -1 then
      // the source writes `width if width != -1 else -1`, which is `width`
      ["scale=" + w + ":" + h + ":flags=lanczos"]
    else
      ["scale=" + w + ":" + h + ":flags=lanczos:force_original_aspect_ratio=increase",
       "crop=" + w + ":" + h + ":(iw-" + w + ")/2:(ih-" + h + ")/2"]
  }

  function FpsStage(job: ConversionJob): seq<string> {
    if job.fps != -1 then ["fps=" + IntToString(job.fps)] else []
  }

  function SpeedStage(job: ConversionJob): seq<string> {
    if SpeedActive(job) then ["setpts=PTS/" + job.speedMultiplier.text] else []
  }

  /** `_base_filters`: the frame-rate stage, then the speed stage, then the
      scale/crop stages, each only when its setting asks for it. */
  function BaseFilters(job: ConversionJob): (r: seq<string>)
    ensures |r| == |FpsStage(job)| + |SpeedStage(job)| + |ScaleCrop(job.width, job.height)|
    ensures r == [] <==> job.fps == -1 && !SpeedActive(job) && job.width == -1 && job.height == -1
    ensures job.fps != -1 ==> r[0] == "fps=" + IntToString(job.fps)
    ensures SpeedActive(job) ==> r[|FpsStage(job)|] == "setpts=PTS/" + job.speedMultiplier.text
    ensures r[|FpsStage(job)| + |SpeedStage(job)|..] == ScaleCrop(job.width, job.height)
  {
    FpsStage(job) + SpeedStage(job) + ScaleCrop(job.width, job.height)
  }

  /** The job has a known, positive duration, so progress reporting is requested. */
  predicate HasKnownDuration(job: ConversionJob) {
    job.totalDuration.Some? && job.totalDuration.value > 0.0
  }

  function WithProgress(job: ConversionJob, args: seq<string>): seq<string> {
    if HasKnownDuration(job) then ["-progress", "pipe:1"] + args else args
  }

  function LoopValue(loop: bool): string { if loop then "0" else "1" }

  /** The `-filter_complex` value of the GIF render: the base chain as a
      labelled first stage feeding `paletteuse`, or `paletteuse` straight on
      the two inputs when the chain is empty. */
  function RenderFilterComplex(job: ConversionJob): string {
    RenderInputs(job) + PaletteUse(job.ditherSetting)
  }

  /** The last stage of the render: apply the palette with the chosen dither. */
  function PaletteUse(dither: string): string {
    "paletteuse=dither=" + dither
  }

  /** What feeds `paletteuse`: the chain's output label `[x]` and the palette,
      or the two inputs directly. */
  function RenderInputs(job: ConversionJob): string {
    var chain := BaseFilters(job);
    if chain != [] then "[0:v]" + Join(chain, ",") + "[x];[x][1:v]" else "[0:v][1:v]"
  }

  /** The `-vf` value of the palette step. */
  function PaletteFilter(job: ConversionJob): string {
    Join(BaseFilters(job) + ["format=rgb24", "palettegen=stats_mode=" + job.paletteMode], ",")
  }

  /** The `-vf` value of the WebP render. */
  function WebpFilter(job: ConversionJob): string {
    Join(BaseFilters(job) + ["format=rgba"], ",")
  }

  function WebpQualityArgs(job: ConversionJob): seq<string> {
    if job.webpLossless then ["-lossless", "1"]
    else ["-q:v", IntToString(job.webpQuality), "-compression_level", IntToString(job.webpCompression)]
  }

  /** `build_palette_plan` */
  function BuildPalettePlan(job: ConversionJob, tools: ToolPaths, paletteFile: string): (p: CommandPlan)
    ensures p.program == tools.ffmpeg && p.logPrefix == FfmpegPalette
    ensures |p.args| == 10 && p.args[4] == "-vf" && p.args[5] == PaletteFilter(job)
    ensures p.args[8] == "-y" && p.args[9] == paletteFile
  {
    CommandPlan(tools.ffmpeg,
      ["-v", "warning", "-i", job.inputFile, "-vf", PaletteFilter(job), "-update", "1", "-y", paletteFile],
      FfmpegPalette)
  }

  function GifRenderCore(job: ConversionJob, paletteFile: string): seq<string> {
    ["-v", "warning", "-i", job.inputFile, "-i", paletteFile, "-filter_complex", RenderFilterComplex(job)]
  }

  /** `build_gif_render_plan` */
  function BuildGifRenderPlan(job: ConversionJob, tools: ToolPaths, paletteFile: string): (p: CommandPlan)
    ensures p.program == tools.ffmpeg && p.logPrefix == FfmpegRender
  {
    var args := GifRenderCore(job, paletteFile) + ["-loop", LoopValue(job.loop)] + ["-y", job.outputFile];
    CommandPlan(tools.ffmpeg, WithProgress(job, args), FfmpegRender)
  }

  /** `build_gifsicle_plan`: optimise the written output in place. */
  function BuildGifsiclePlan(job: ConversionJob, tools: ToolPaths): (p: CommandPlan)
    ensures p.program == tools.gifsicle && p.logPrefix == GifsicleOptimize
    ensures |p.args| == 5 && p.args[0] == "-O3"
    ensures p.args[1] == (if job.loop then "--loopcount=0" else "--no-loopcount")
    ensures p.args[2] == p.args[4] == job.outputFile && p.args[3] == "-o"
  {
    CommandPlan(tools.gifsicle,
      ["-O3", if job.loop then "--loopcount=0" else "--no-loopcount", job.outputFile, "-o", job.outputFile],
      GifsicleOptimize)
  }

  function WebpCore(job: ConversionJob): seq<string> {
    ["-v", "warning", "-i", job.inputFile, "-vf", WebpFilter(job)]
  }

  /** `build_webp_plan` */
  function BuildWebpPlan(job: ConversionJob, tools: ToolPaths): (p: CommandPlan)
    ensures p.program == tools.ffmpeg && p.logPrefix == FfmpegRender
  {
    var args := WebpCore(job) + WebpQualityArgs(job) + ["-loop", LoopValue(job.loop)] + ["-y", job.outputFile];
    CommandPlan(tools.ffmpeg, WithProgress(job, args), FfmpegRender)
  }

  // ---------------------------------------------------------------------------
  // Progress-line scanning: re.search(r"frame=\s*(\d+)") and re.search(r"out_time_ms=(\d+)")

  function SpaceRunEnd(s: string, j: nat): (k: nat)
    requires j <= |s|
    ensures j <= k <= |s|
    ensures forall m :: j <= m < k ==> IsSpace(s[m])
    ensures k < |s| ==> !IsSpace(s[k])
    decreases |s| - j
  {
    if j < |s| && IsSpace(s[j]) then SpaceRunEnd(s, j + 1) else j
  }

  function DigitRunEnd(s: string, j: nat): (k: nat)
    requires j <= |s|
    ensures j <= k <= |s|
    ensures forall m :: j <= m < k ==> IsDigit(s[m])
    ensures k < |s| ==> !IsDigit(s[k])
    decreases |s| - j
  {
    if j < |s| && IsDigit(s[j]) then DigitRunEnd(s, j + 1) else j
  }

  /** The integer captured when `key`, then (if `spaces`) optional whitespace,
      then one or more digits match at position `i`. */
  function MatchAt(line: string, i: nat, key: string, spaces: bool): Option<nat>
    requires i <= |line|
  {
    MatchKeyFrom(line, i, key, 0, spaces)
  }

  /** The key compared from its `k`-th character on, then the capture. */
  function MatchKeyFrom(line: string, i: nat, key: string, k: nat, spaces: bool): Option<nat>
    requires k <= |key| && i + k <= |line|
    decreases |key| - k
  {
    if k == |key| then Capture(line, i + k, spaces)
    else if i + k < |line| && line[i + k] == key[k] then MatchKeyFrom(line, i, key, k + 1, spaces)
    else None
  }

  /** What follows the key: whitespace skipped (if `spaces`), then the digits
      read as a number. Whitespace and digits do not overlap, so skipping
      greedily is the only way to match. */
  function Capture(line: string, j: nat, spaces: bool): Option<nat>
    requires j <= |line|
    decreases |line| - j
  {
    if spaces && j < |line| && IsSpace(line[j]) then Capture(line, j + 1, spaces)
    else ReadDigits(line, j, j, 0)
  }

  /** The run of digits from `start`, with `acc` the value of those before
      `j`; None when the run is empty. */
  function ReadDigits(line: string, start: nat, j: nat, acc: nat): Option<nat>
    requires start <= j <= |line|
    decreases |line| - j
  {
    if j < |line| && IsDigit(line[j]) then ReadDigits(line, start, j + 1, acc * 10 + DigitValue(line[j]))
    else if j > start then Some(acc)
    else None
  }

  /** The capture is the value of the maximal digit run after the maximal
      whitespace run. */
  lemma CaptureValue(line: string, start: nat, spaces: bool)
    requires start <= |line|
    ensures var j := if spaces then SpaceRunEnd(line, start) else start;
      var k := DigitRunEnd(line, j);
      Capture(line, start, spaces) == if k > j then (assert AllDigits(line[j..k]); Some(DigitsValue(line[j..k]))) else None
  {
    var j := if spaces then SpaceRunEnd(line, start) else start;
    CaptureSkipsSpaces(line, start, spaces);
    assert line[j..j] == [];
    ReadDigitsValue(line, j, j, 0);
  }

  lemma {:induction false} CaptureSkipsSpaces(line: string, start: nat, spaces: bool)
    requires start <= |line|
    ensures Capture(line, start, spaces) == ReadDigits(line, if spaces then SpaceRunEnd(line, start) else start, if spaces then SpaceRunEnd(line, start) else start, 0)
    decreases |line| - start
  {
    if spaces && start < |line| && IsSpace(line[start]) {
      CaptureSkipsSpaces(line, start + 1, spaces);
    }
  }

  lemma {:induction false} ReadDigitsValue(line: string, start: nat, j: nat, acc: nat)
    requires start <= j <= |line| && forall m :: start <= m < j ==> IsDigit(line[m])
    requires acc == (assert AllDigits(line[start..j]); DigitsValue(line[start..j]))
    ensures var k := DigitRunEnd(line, j);
      ReadDigits(line, start, j, acc) == if k > start then (assert AllDigits(line[start..k]); Some(DigitsValue(line[start..k]))) else None
    decreases |line| - j
  {
    if j < |line| && IsDigit(line[j]) {
      var d := line[start..j + 1];
      assert d[..|d| - 1] == line[start..j];
      assert DigitsValue(d) == acc * 10 + DigitValue(line[j]);
      ReadDigitsValue(line, start, j + 1, acc * 10 + DigitValue(line[j]));
    }
  }

  /** Where the key occurs at `i`, the match is the capture after it. */
  lemma MatchAtKey(line: string, i: nat, key: string, spaces: bool)
    requires i + |key| <= |line| && line[i..i + |key|] == key
    ensures MatchAt(line, i, key, spaces) == Capture(line, i + |key|, spaces)
  {
    MatchKeyFromKey(line, i, key, 0, spaces);
  }

  lemma {:induction false} MatchKeyFromKey(line: string, i: nat, key: string, k: nat, spaces: bool)
    requires k <= |key| && i + |key| <= |line| && line[i..i + |key|] == key
    ensures MatchKeyFrom(line, i, key, k, spaces) == Capture(line, i + |key|, spaces)
    decreases |key| - k
  {
    if k < |key| {
      assert line[i + k] == line[i..i + |key|][k];
      MatchKeyFromKey(line, i, key, k + 1, spaces);
    }
  }

  /** A key that runs past the end of the line does not match. */
  lemma {:induction false} MatchKeyPastEnd(line: string, i: nat, key: string, k: nat, spaces: bool)
    requires k <= |key| && i + k <= |line| && i + |key| > |line|
    ensures MatchKeyFrom(line, i, key, k, spaces) == None
    decreases |key| - k
  {
    if i + k < |line| && line[i + k] == key[k] {
      MatchKeyPastEnd(line, i, key, k + 1, spaces);
    }
  }

  /** `p` is where `re.search` finds its match: the pattern matches at `p` and
      at no earlier position. */
  ghost predicate LeftmostMatch(line: string, key: string, spaces: bool, p: nat) {
    p <= |line| && MatchAt(line, p, key, spaces).Some?
    && forall q :: 0 <= q < p ==> MatchAt(line, q, key, spaces).None?
  }

  function MatchPosition(line: string, i: nat, key: string, spaces: bool): (p: Option<nat>)
    requires i <= |line|
    ensures p.Some? ==>
      && i <= p.value <= |line|
      && MatchAt(line, p.value, key, spaces).Some?
      && forall q :: i <= q < p.value ==> MatchAt(line, q, key, spaces).None?
    ensures p.None? ==> forall q :: i <= q <= |line| ==> MatchAt(line, q, key, spaces).None?
    decreases |line| - i
  {
    if MatchAt(line, i, key, spaces).Some? then Some(i)
    else if i == |line| then None
    else MatchPosition(line, i + 1, key, spaces)
  }

  /** `re.search` followed by `int(match.group(1))`: the value at the leftmost
      match, or None when the pattern matches nowhere. */
  function Search(line: string, key: string, spaces: bool): Option<nat> {
    SearchFrom(line, 0, key, spaces)
  }

  /** The value at the first match at or after position `i`. */
  function SearchFrom(line: string, i: nat, key: string, spaces: bool): Option<nat>
    requires i <= |line|
    decreases |line| - i
  {
    if MatchAt(line, i, key, spaces).Some? then MatchAt(line, i, key, spaces)
    else if i == |line| then None
    else SearchFrom(line, i + 1, key, spaces)
  }

  lemma SearchFromPosition(line: string, i: nat, key: string, spaces: bool)
    requires i <= |line|
    ensures var pos := MatchPosition(line, i, key, spaces);
      SearchFrom(line, i, key, spaces) == if pos.Some? then MatchAt(line, pos.value, key, spaces) else None
    decreases |line| - i
  {
    if MatchAt(line, i, key, spaces).None? && i < |line| {
      SearchFromPosition(line, i + 1, key, spaces);
    }
  }

  /** `Search` finds a value exactly when a leftmost match exists, and reads
      it at that match. */
  lemma SearchIsLeftmost(line: string, key: string, spaces: bool)
    ensures Search(line, key, spaces).Some? <==> exists p :: LeftmostMatch(line, key, spaces, p)
    ensures forall p :: LeftmostMatch(line, key, spaces, p) ==>
      Search(line, key, spaces) == MatchAt(line, p, key, spaces)
  {
    var pos := MatchPosition(line, 0, key, spaces);
    SearchFromPosition(line, 0, key, spaces);
    if pos.Some? {
      assert LeftmostMatch(line, key, spaces, pos.value);
    }
  }

  /** `parse_ffmpeg_progress_line`: the frame number and the `out_time_ms`
      value of the line, each None when absent. */
  function ParseFfmpegProgressLine(line: string): (r: (Option<nat>, Option<nat>))
    ensures r.0.Some? <==> exists p :: LeftmostMatch(line, "frame=", true, p)
    ensures forall p :: LeftmostMatch(line, "frame=", true, p) ==> r.0 == MatchAt(line, p, "frame=", true)
    ensures r.1.Some? <==> exists p :: LeftmostMatch(line, "out_time_ms=", false, p)
    ensures forall p :: LeftmostMatch(line, "out_time_ms=", false, p) ==> r.1 == MatchAt(line, p, "out_time_ms=", false)
  {
    SearchIsLeftmost(line, "frame=", true);
    SearchIsLeftmost(line, "out_time_ms=", false);
    (Search(line, "frame=", true), Search(line, "out_time_ms=", false))
  }

  /** `estimate_total_frames`: None when the duration or the frame rate is
      missing or zero; otherwise their product truncated toward zero. */
  function EstimateTotalFrames(duration: Option<real>, fps: Option<real>): (r: Option<int>)
    ensures r.None? <==> !Truthy(duration) || !Truthy(fps)
    ensures r.Some? && duration.value * fps.value >= 0.0 ==>
      0 <= r.value && r.value as real <= duration.value * fps.value < r.value as real + 1.0
    ensures r.Some? && duration.value * fps.value < 0.0 ==>
      r.value <= 0 && r.value as real - 1.0 < duration.value * fps.value <= r.value as real
  {
    if !Truthy(duration) || !Truthy(fps) then None else Some(Trunc(duration.value * fps.value))
  }
}
