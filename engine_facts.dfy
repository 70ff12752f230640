/** Properties of the command plans and of the progress-line scanner. */
module EngineFacts {
  import opened Options
  import opened Strings
  import opened Models
  import opened Engine

  // ---------------------------------------------------------------------------
  // Helpers about joining

  lemma {:induction false} JoinHead(xs: seq<string>, sep: string)
    requires |xs| >= 1 && xs[0] != ""
    ensures |Join(xs, sep)| >= 1 && Join(xs, sep)[0] == xs[0][0]
    decreases |xs|
  {
    if |xs| > 1 {
      JoinHead(xs[..|xs| - 1], sep);
    }
  }

  lemma JoinLast(xs: seq<string>, y: string, sep: string)
    requires y != ""
    ensures |Join(xs + [y], sep)| >= 1 && Join(xs + [y], sep)[|Join(xs + [y], sep)| - 1] == y[|y| - 1]
  {
    var ys := xs + [y];
    assert ys[..|ys| - 1] == xs;
  }

  /** Joining a chain followed by two more stages. */
  lemma JoinTwoMore(xs: seq<string>, a: string, b: string, sep: string)
    ensures Join(xs + [a, b], sep) == (if xs == [] then "" else Join(xs, sep) + sep) + a + sep + b
  {
    var ys := xs + [a, b];
    assert ys[..|ys| - 1] == xs + [a];
    var zs := xs + [a];
    assert zs[..|zs| - 1] == xs;
  }

  lemma JoinOneMore(xs: seq<string>, a: string, sep: string)
    ensures Join(xs + [a], sep) == (if xs == [] then "" else Join(xs, sep) + sep) + a
  {
    var zs := xs + [a];
    assert zs[..|zs| - 1] == xs;
  }

  // ---------------------------------------------------------------------------
  // Filter chains

  /** The first stage of a non-empty base chain starts with `f` (fps) or `s`
      (setpts, scale); never with the `[` of a stream label. */
  lemma BaseFiltersHead(job: ConversionJob)
    requires BaseFilters(job) != []
    ensures BaseFilters(job)[0] != "" && BaseFilters(job)[0][0] in {'f', 's'}
  {
    var chain := BaseFilters(job);
    if job.fps != -1 {
      assert chain[0] == "fps=" + IntToString(job.fps);
    } else if SpeedActive(job) {
      assert chain[0] == "setpts=PTS/" + job.speedMultiplier.text;
    } else {
      assert chain == ScaleCrop(job.width, job.height);
    }
  }

  /** What feeds `paletteuse` starts with the two bare input labels exactly
      when the base chain is empty. */
  lemma RenderInputsShape(job: ConversionJob)
    ensures var head := RenderInputs(job);
      |head| >= 10 && (head[..10] == "[0:v][1:v]" <==> BaseFilters(job) == [])
  {
    var chain := BaseFilters(job);
    if chain != [] {
      BaseFiltersHead(job);
      JoinHead(chain, ",");
      LabelledHead(Join(chain, ","));
    }
  }

  /** A chain whose text starts with `f` or `s` gets a head other than the
      two bare input labels. */
  lemma LabelledHead(j: string)
    requires j != [] && j[0] in {'f', 's'}
    ensures var head := "[0:v]" + j + "[x];[x][1:v]";
      |head| >= 10 && head[..10] != "[0:v][1:v]"
  {
    var head := "[0:v]" + j + "[x];[x][1:v]";
    assert head[5] == j[0];
    assert head[..10][5] != "[0:v][1:v]"[5];
  }

  /** The GIF render reads the two inputs straight into `paletteuse` exactly
      when the base chain is empty (frame rate -1, speed 1.0 or 0, size
      -1:-1); otherwise the chain runs first under the `[0:v]` label. In both
      cases the filter ends with the `paletteuse` stage and the job's dither. */
  lemma RenderFilterShape(job: ConversionJob)
    ensures var fc := RenderFilterComplex(job);
      |fc| >= 10
      && (fc[..10] == "[0:v][1:v]"
          <==> (job.fps == -1 && !SpeedActive(job) && job.width == -1 && job.height == -1))
    ensures EndsWith(RenderFilterComplex(job), PaletteUse(job.ditherSetting))
  {
    var fc := RenderFilterComplex(job);
    var head := RenderInputs(job);
    var tail := PaletteUse(job.ditherSetting);
    RenderInputsShape(job);
    assert fc[..10] == head[..10];
    assert fc[|fc| - |tail|..] == tail;
  }

  /** The whole `-filter_complex` text of the GIF render: the two input
      labels straight into `paletteuse` for an empty chain, otherwise the
      chain joined by commas under `[0:v]`, labelled `[x]`, then `paletteuse`
      on `[x]` and the palette. */
  lemma RenderFilterText(job: ConversionJob)
    ensures BaseFilters(job) == [] ==>
      RenderFilterComplex(job) == "[0:v][1:v]paletteuse=dither=" + job.ditherSetting
    ensures BaseFilters(job) != [] ==>
      RenderFilterComplex(job)
        == "[0:v]" + Join(BaseFilters(job), ",") + "[x];[x][1:v]paletteuse=dither=" + job.ditherSetting
  {
    var chain := BaseFilters(job);
    var d := job.ditherSetting;
    if chain != [] {
      LabelledText(Join(chain, ","), d);
    }
  }

  lemma LabelledText(j: string, d: string)
    ensures "[0:v]" + j + "[x];[x][1:v]" + ("paletteuse=dither=" + d)
         == "[0:v]" + j + "[x];[x][1:v]paletteuse=dither=" + d
  {
  }

  /** The palette step filters with the same base chain as the renders,
      followed by `format=rgb24` and `palettegen` with the job's mode. */
  lemma PaletteFilterShape(job: ConversionJob)
    ensures var chain := BaseFilters(job);
      PaletteFilter(job) == (if chain == [] then "" else Join(chain, ",") + ",")
                            + "format=rgb24" + "," + "palettegen=stats_mode=" + job.paletteMode
  {
    JoinTwoMore(BaseFilters(job), "format=rgb24", "palettegen=stats_mode=" + job.paletteMode, ",");
  }

  /** The WebP render filters with the base chain followed by `format=rgba`. */
  lemma WebpFilterShape(job: ConversionJob)
    ensures var chain := BaseFilters(job);
      WebpFilter(job) == (if chain == [] then "" else Join(chain, ",") + ",") + "format=rgba"
  {
    JoinOneMore(BaseFilters(job), "format=rgba", ",");
  }

  // ---------------------------------------------------------------------------
  // Render plans

  lemma CountLoopPair(loop: bool)
    ensures Count(["-loop", LoopValue(loop)], "-loop") == 1
  {
    var xs := ["-loop", LoopValue(loop)];
    assert xs[..1] == ["-loop"];
    assert ["-loop"][..0] == [];
  }

  /** The tail shared by both render plans: after a head that starts with
      `-v warning` and holds no `-loop`, the plan carries exactly one `-loop`
      flag with the job's value, ends with `-y <output>`, and starts with
      `-progress pipe:1` exactly when the duration is known and positive. */
  lemma RenderTail(job: ConversionJob, head: seq<string>, output: string)
    requires |head| >= 2 && head[0] == "-v" && head[1] == "warning"
    requires "-loop" !in head && output != "-loop"
    ensures var a := WithProgress(job, head + ["-loop", LoopValue(job.loop)] + ["-y", output]);
      && |a| >= 4
      && Count(a, "-loop") == 1
      && a[|a| - 4] == "-loop" && a[|a| - 3] == LoopValue(job.loop)
      && a[|a| - 2..] == ["-y", output]
      && ((a[..2] == ["-progress", "pipe:1"]) <==> HasKnownDuration(job))
  {
    var lp := ["-loop", LoopValue(job.loop)];
    var out := ["-y", output];
    var args := head + lp + out;
    var a := WithProgress(job, args);
    CountAbsent(head, "-loop");
    CountAbsent(out, "-loop");
    CountLoopPair(job.loop);
    CountAppend(head, lp, "-loop");
    CountAppend(head + lp, out, "-loop");
    if HasKnownDuration(job) {
      CountAbsent(["-progress", "pipe:1"], "-loop");
      CountAppend(["-progress", "pipe:1"], args, "-loop");
    } else {
      assert a[..2] == ["-v", "warning"];
    }
  }

  /** The palette plan's arguments around its filter: quiet logging and the
      input before `-vf`, and `-update 1` (one image written, overwritten in
      place) before `-y <palette>`. */
  lemma PalettePlanArgs(job: ConversionJob, tools: ToolPaths, paletteFile: string)
    ensures var a := BuildPalettePlan(job, tools, paletteFile).args;
      && a[0] == "-v" && a[1] == "warning" && a[2] == "-i" && a[3] == job.inputFile
      && a[6] == "-update" && a[7] == "1"
  {
    PaletteArgsAt(job.inputFile, PaletteFilter(job), paletteFile);
  }

  /** The palette arguments' fixed words, with the texts left abstract. */
  lemma PaletteArgsAt(input: string, filter: string, palette: string)
    ensures var a := ["-v", "warning", "-i", input, "-vf", filter, "-update", "1", "-y", palette];
      && a[0] == "-v" && a[1] == "warning" && a[2] == "-i" && a[3] == input
      && a[6] == "-update" && a[7] == "1"
  {
  }

  /** The GIF render plan's whole argument list: the optional progress pair,
      the two inputs, the filter graph, the loop flag and the output. */
  lemma GifRenderPlanArgs(job: ConversionJob, tools: ToolPaths, paletteFile: string)
    ensures BuildGifRenderPlan(job, tools, paletteFile).args
      == (if HasKnownDuration(job) then ["-progress", "pipe:1"] else [])
         + ["-v", "warning", "-i", job.inputFile, "-i", paletteFile,
            "-filter_complex", RenderFilterComplex(job), "-loop", LoopValue(job.loop), "-y", job.outputFile]
  {
    var pre: seq<string> := if HasKnownDuration(job) then ["-progress", "pipe:1"] else [];
    assert BuildGifRenderPlan(job, tools, paletteFile).args
      == pre + (GifRenderCore(job, paletteFile) + ["-loop", LoopValue(job.loop)] + ["-y", job.outputFile]);
    RenderArgsJoined(job.inputFile, paletteFile, RenderFilterComplex(job), LoopValue(job.loop), job.outputFile);
  }

  /** The render arguments' three parts joined, with the texts left abstract. */
  lemma RenderArgsJoined(input: string, palette: string, graph: string, loop: string, output: string)
    ensures ["-v", "warning", "-i", input, "-i", palette, "-filter_complex", graph] + ["-loop", loop] + ["-y", output]
      == ["-v", "warning", "-i", input, "-i", palette, "-filter_complex", graph, "-loop", loop, "-y", output]
  {
  }

  /** The GIF render plan has one `-loop` flag, valued "0" for a looping job and
      "1" otherwise, ends with `-y <output>`, and starts with
      `-progress pipe:1` exactly when the job's duration is known and positive.
      (A path that is itself the text "-loop" would add a second occurrence.) */
  lemma GifRenderPlanFlags(job: ConversionJob, tools: ToolPaths, paletteFile: string)
    requires job.inputFile != "-loop" && job.outputFile != "-loop" && paletteFile != "-loop"
    ensures var a := BuildGifRenderPlan(job, tools, paletteFile).args;
      && |a| >= 4
      && Count(a, "-loop") == 1
      && a[|a| - 4] == "-loop" && a[|a| - 3] == LoopValue(job.loop)
      && a[|a| - 2..] == ["-y", job.outputFile]
      && ((a[..2] == ["-progress", "pipe:1"]) <==> HasKnownDuration(job))
  {
    var core := GifRenderCore(job, paletteFile);
    RenderFilterNotLoop(job);
    assert core[7] == RenderFilterComplex(job);
    assert "-loop" !in core;
    RenderTail(job, core, job.outputFile);
  }

  /** The render's filter graph starts with an input label, so it is no flag. */
  lemma RenderFilterNotLoop(job: ConversionJob)
    ensures RenderFilterComplex(job) != "-loop"
  {
    var head := RenderInputs(job);
    assert head[0] == '[';
    assert RenderFilterComplex(job)[0] == '[';
  }

  /** The flags the WebP plan is read for. */
  predicate IsWebpFlag(s: string) {
    s == "-loop" || s == "-lossless" || s == "-q:v" || s == "-compression_level"
  }

  /** Apart from the input path, no entry of the WebP head is one of the
      flags: the filter ends with `a`. */
  lemma WebpHeadFlagFree(job: ConversionJob)
    requires !IsWebpFlag(job.inputFile)
    ensures forall x :: x in WebpCore(job) ==> !IsWebpFlag(x)
  {
    var vf := WebpFilter(job);
    JoinLast(BaseFilters(job), "format=rgba", ",");
    assert vf[|vf| - 1] == 'a';
    assert !IsWebpFlag(vf);
  }

  /** The WebP plan obeys the same loop, output and progress rules as the GIF
      render. */
  lemma WebpPlanLoop(job: ConversionJob, tools: ToolPaths)
    requires !IsWebpFlag(job.inputFile) && !IsWebpFlag(job.outputFile)
    ensures var a := BuildWebpPlan(job, tools).args;
      && |a| >= 4
      && Count(a, "-loop") == 1
      && a[|a| - 4] == "-loop" && a[|a| - 3] == LoopValue(job.loop)
      && a[|a| - 2..] == ["-y", job.outputFile]
      && ((a[..2] == ["-progress", "pipe:1"]) <==> HasKnownDuration(job))
  {
    WebpHeadNoLoop(job);
    RenderTail(job, WebpCore(job) + WebpQualityArgs(job), job.outputFile);
  }

  /** No `-loop` before the tail of the WebP plan: the quality values end in a digit. */
  lemma WebpHeadNoLoop(job: ConversionJob)
    requires !IsWebpFlag(job.inputFile)
    ensures var head := WebpCore(job) + WebpQualityArgs(job);
      |head| >= 2 && head[0] == "-v" && head[1] == "warning" && "-loop" !in head
  {
    var core := WebpCore(job);
    var q := WebpQualityArgs(job);
    WebpHeadFlagFree(job);
    assert "-loop" !in core;
    QualityArgsNoLoop(job);
    assert core[0] == "-v" && core[1] == "warning";
  }

  lemma QualityArgsNoLoop(job: ConversionJob)
    ensures "-loop" !in WebpQualityArgs(job)
  {
    if !job.webpLossless {
      var qs := IntToString(job.webpQuality);
      var cs := IntToString(job.webpCompression);
      EndsInDigitIsNoFlag(qs);
      EndsInDigitIsNoFlag(cs);
    }
  }

  lemma EndsInDigitIsNoFlag(x: string)
    requires x != [] && IsDigit(x[|x| - 1])
    ensures !IsWebpFlag(x)
  {
  }

  lemma InMiddle(pre: seq<string>, core: seq<string>, q: seq<string>, rest: seq<string>, f: string)
    requires f !in pre && f !in core && f !in rest
    ensures f in pre + core + q + rest <==> f in q
  {
  }

  /** The WebP plan is its head, quality and tail arguments, after the
      optional progress pair. */
  lemma WebpPlanParts(job: ConversionJob, tools: ToolPaths)
    ensures BuildWebpPlan(job, tools).args
      == (if HasKnownDuration(job) then ["-progress", "pipe:1"] else []) + WebpCore(job)
         + WebpQualityArgs(job) + (["-loop", LoopValue(job.loop)] + ["-y", job.outputFile])
  {
    var core, q, l, y := WebpCore(job), WebpQualityArgs(job), ["-loop", LoopValue(job.loop)], ["-y", job.outputFile];
    var pre: seq<string> := if HasKnownDuration(job) then ["-progress", "pipe:1"] else [];
    assert BuildWebpPlan(job, tools).args == pre + (core + q + l + y);
    JoinFour(pre, core, q, l, y);
  }

  lemma JoinFour(pre: seq<string>, core: seq<string>, q: seq<string>, l: seq<string>, y: seq<string>)
    ensures pre + (core + q + l + y) == pre + core + q + (l + y)
  {
  }

  /** The quality arguments alone: `-lossless` for a lossless job, `-q:v` and
      `-compression_level` otherwise. */
  lemma QualityArgsFlags(job: ConversionJob)
    ensures var q := WebpQualityArgs(job);
      && ("-lossless" in q <==> job.webpLossless)
      && ("-q:v" in q <==> !job.webpLossless)
      && ("-compression_level" in q <==> !job.webpLossless)
  {
    var q := WebpQualityArgs(job);
    if !job.webpLossless {
      var qs := IntToString(job.webpQuality);
      var cs := IntToString(job.webpCompression);
      assert IsDigit(qs[|qs| - 1]) && IsDigit(cs[|cs| - 1]);
      assert q == ["-q:v", qs, "-compression_level", cs];
    }
  }

  lemma WebpPlanFlagFree(job: ConversionJob, pre: seq<string>, rest: seq<string>)
    requires !IsWebpFlag(job.inputFile) && !IsWebpFlag(job.outputFile)
    requires pre == [] || pre == ["-progress", "pipe:1"]
    requires rest == ["-loop", LoopValue(job.loop)] + ["-y", job.outputFile]
    ensures "-lossless" !in pre && "-q:v" !in pre && "-compression_level" !in pre
    ensures "-lossless" !in rest && "-q:v" !in rest && "-compression_level" !in rest
    ensures var core := WebpCore(job);
      "-lossless" !in core && "-q:v" !in core && "-compression_level" !in core
  {
    WebpHeadFlagFree(job);
  }

  /** The quality flags follow `webp_lossless`: `-lossless` when set,
      `-q:v` and `-compression_level` otherwise, never both kinds. */
  lemma WebpPlanQuality(job: ConversionJob, tools: ToolPaths)
    requires !IsWebpFlag(job.inputFile) && !IsWebpFlag(job.outputFile)
    ensures var a := BuildWebpPlan(job, tools).args;
      && ("-lossless" in a <==> job.webpLossless)
      && ("-q:v" in a <==> !job.webpLossless)
      && ("-compression_level" in a <==> !job.webpLossless)
  {
    var pre: seq<string> := if HasKnownDuration(job) then ["-progress", "pipe:1"] else [];
    var core := WebpCore(job);
    var q := WebpQualityArgs(job);
    var rest := ["-loop", LoopValue(job.loop)] + ["-y", job.outputFile];
    WebpPlanParts(job, tools);
    WebpPlanFlagFree(job, pre, rest);
    QualityArgsFlags(job);
    InMiddle(pre, core, q, rest, "-lossless");
    InMiddle(pre, core, q, rest, "-q:v");
    InMiddle(pre, core, q, rest, "-compression_level");
  }

  // ---------------------------------------------------------------------------
  // Progress lines

  lemma SpaceRunEndIs(s: string, j: nat, k: nat)
    requires j <= k <= |s|
    requires forall m :: j <= m < k ==> IsSpace(s[m])
    requires k < |s| ==> !IsSpace(s[k])
    ensures SpaceRunEnd(s, j) == k
  {
  }

  lemma DigitRunEndIs(s: string, j: nat, k: nat)
    requires j <= k <= |s|
    requires forall m :: j <= m < k ==> IsDigit(s[m])
    requires k < |s| ==> !IsDigit(s[k])
    ensures DigitRunEnd(s, j) == k
  {
  }

  /** `n` blanks */
  function Blanks(n: nat): (r: string)
    ensures |r| == n && forall i :: 0 <= i < n ==> r[i] == ' '
  {
    seq(n, _ => ' ')
  }

  /** A stats line as ffmpeg writes it: `frame=`, `pad` blanks, the frame
      number, then whatever follows it (" fps=30 q=-0.0 ..."). */
  function FrameText(pad: nat, frame: nat, rest: string): string {
    "frame=" + Blanks(pad) + NatToString(frame) + rest
  }

  /** The frame number is read back as written, whatever the padding after
      `frame=` and whatever follows the number, as long as it does not start
      with another digit. */
  lemma FrameLineRoundTrip(pad: nat, frame: nat, rest: string)
    requires rest == [] || !IsDigit(rest[0])
    ensures ParseFfmpegProgressLine(FrameText(pad, frame, rest)).0 == Some(frame)
  {
    var line := FrameText(pad, frame, rest);
    var d := NatToString(frame);
    var j := 6 + pad;
    var e := j + |d|;
    assert line[..6] == "frame=";
    assert forall m :: 6 <= m < j ==> line[m] == Blanks(pad)[m - 6];
    assert forall m :: j <= m < e ==> line[m] == d[m - j];
    assert line[j..e] == d;
    assert e < |line| ==> line[e] == rest[0];
    SpaceRunEndIs(line, 6, j);
    DigitRunEndIs(line, j, e);
    DigitsValueOfNatToString(frame);
    MatchAtKey(line, 0, "frame=", true);
    CaptureValue(line, 6, true);
    assert MatchAt(line, 0, "frame=", true) == Some(frame);
    assert LeftmostMatch(line, "frame=", true, 0);
  }

  /** An `out_time_ms=` line of the `-progress` report. */
  function OutTimeText(outTime: nat): string {
    "out_time_ms=" + NatToString(outTime)
  }

  /** The elapsed time is read back as written, and the line reports no frame. */
  lemma OutTimeLineRoundTrip(outTime: nat)
    ensures ParseFfmpegProgressLine(OutTimeText(outTime)) == (None, Some(outTime))
  {
    var line := OutTimeText(outTime);
    var t := NatToString(outTime);
    assert line[..12] == "out_time_ms=";
    assert line[12..|line|] == t;
    DigitRunEndIs(line, 12, |line|);
    DigitsValueOfNatToString(outTime);
    MatchAtKey(line, 0, "out_time_ms=", false);
    CaptureValue(line, 12, false);
    assert MatchAt(line, 0, "out_time_ms=", false) == Some(outTime);
    assert LeftmostMatch(line, "out_time_ms=", false, 0);
    assert 'f' !in line by {
      forall m | 0 <= m < |line| ensures line[m] != 'f' {
        if m >= 12 { assert line[m] == t[m - 12]; assert IsDigit(t[m - 12]); }
      }
    }
    SearchWithoutKeyStart(line, "frame=", true);
  }

  /** A pattern whose first character does not occur in the line matches nowhere. */
  lemma SearchWithoutKeyStart(line: string, key: string, spaces: bool)
    requires |key| >= 1 && key[0] !in line
    ensures Search(line, key, spaces) == None
  {
    forall p | 0 <= p <= |line|
      ensures MatchAt(line, p, key, spaces).None?
    {
      assert p < |line| ==> line[p] in line;
    }
    SearchIsLeftmost(line, key, spaces);
  }

  /** A line without either field parses to (None, None), as for "bitrate=1000". */
  lemma ParseWithoutFields(line: string)
    requires 'f' !in line && 'o' !in line
    ensures ParseFfmpegProgressLine(line) == (None, None)
  {
    SearchWithoutKeyStart(line, "frame=", true);
    SearchWithoutKeyStart(line, "out_time_ms=", false);
  }
}
