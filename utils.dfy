/** The shared helpers of the converter: locating the external tools, checking
    an output path, the ffprobe timeout, and reading ffprobe's answers. What
    the operating system says (a `PATH` lookup, whether a path is a directory,
    a file size, a probe's output) is passed in. */
module Utils {
  import opened Options
  import opened Strings

  // ---------------------------------------------------------------------------
  // check_dependencies

  /** The tools looked up, in lookup order. */
  const DependencyNames: seq<string> := ["ffmpeg", "ffprobe", "gifsicle"]

  /** Where a tool was found and how it was found. */
  datatype ToolLocation = ToolLocation(path: string, source: string)

  /** `shutil.which(name)` gives a usable answer: `which` holds the lookups
      that return a path, and an empty answer is as good as none. */
  predicate Found(which: map<string, string>, name: string) {
    name in which && which[name] != ""
  }

  /** The names not found, in their order. */
  function MissingTools(which: map<string, string>, names: seq<string>): (missing: seq<string>)
    ensures |missing| <= |names|
  {
    if names == [] then []
    else
      var last := names[|names| - 1];
      MissingTools(which, names[..|names| - 1]) + (if Found(which, last) then [] else [last])
  }

  /** The names found, each with its path and the source "PATH". */
  function FoundTools(which: map<string, string>, names: seq<string>): (paths: map<string, ToolLocation>)
  {
    if names == [] then map[]
    else
      var last := names[|names| - 1];
      var before := FoundTools(which, names[..|names| - 1]);
      if Found(which, last) then before[last := ToolLocation(which[last], "PATH")] else before
  }

  /** `check_dependencies`: every tool found goes into the map with source
      "PATH", every other one onto the missing list. */
  method CheckDependencies(which: map<string, string>) returns (paths: map<string, ToolLocation>, missing: seq<string>)
    ensures paths == FoundTools(which, DependencyNames)
    ensures missing == MissingTools(which, DependencyNames)
  {
    paths := map[];
    missing := [];
    for i := 0 to |DependencyNames|
      invariant paths == FoundTools(which, DependencyNames[..i])
      invariant missing == MissingTools(which, DependencyNames[..i])
    {
      var name := DependencyNames[i];
      assert DependencyNames[..i + 1][..i] == DependencyNames[..i];
      if name in which && which[name] != "" {
        paths := paths[name := ToolLocation(which[name], "PATH")];
      } else {
        missing := missing + [name];
      }
    }
    assert DependencyNames[..|DependencyNames|] == DependencyNames;
  }

  /** Each tool ends up in exactly one place: in the map, with the path the
      lookup gave and the source "PATH", when it is found; on the missing
      list when it is not. Nothing else is in either. */
  lemma {:induction false} ToolsPartitioned(which: map<string, string>, names: seq<string>, name: string)
    ensures name in FoundTools(which, names) <==> name in names && Found(which, name)
    ensures name in FoundTools(which, names) ==> FoundTools(which, names)[name] == ToolLocation(which[name], "PATH")
    ensures name in MissingTools(which, names) <==> name in names && !Found(which, name)
    decreases |names|
  {
    if names != [] {
      var init := names[..|names| - 1];
      ToolsPartitioned(which, init, name);
      assert names == init + [names[|names| - 1]];
    }
  }

  /** The missing list keeps the lookup order: two missing tools appear in it
      in the order they were looked up. */
  lemma {:induction false} MissingToolsOrdered(which: map<string, string>, names: seq<string>, i: nat, j: nat)
    requires i < j < |names| && !Found(which, names[i]) && !Found(which, names[j])
    ensures exists p, q :: (0 <= p < q < |MissingTools(which, names)|
      && MissingTools(which, names)[p] == names[i] && MissingTools(which, names)[q] == names[j])
    decreases |names|
  {
    var m := MissingTools(which, names);
    var init := names[..|names| - 1];
    var before := MissingTools(which, init);
    if j == |names| - 1 {
      ToolsPartitioned(which, init, names[i]);
      assert init[i] == names[i];
      var p :| 0 <= p < |before| && before[p] == names[i];
      assert m == before + [names[j]];
      assert m[p] == names[i] && m[|before|] == names[j];
    } else {
      MissingToolsOrdered(which, init, i, j);
      var p, q :| 0 <= p < q < |before| && before[p] == init[i] && before[q] == init[j];
      assert m[p] == names[i] && m[q] == names[j];
    }
  }

  /** With every tool found nothing is missing, and with none found all are,
      in lookup order. */
  lemma AllOrNoneFound(which: map<string, string>)
    ensures (forall name :: name in DependencyNames ==> Found(which, name)) ==> MissingTools(which, DependencyNames) == []
    ensures (forall name :: name in DependencyNames ==> !Found(which, name)) ==> MissingTools(which, DependencyNames) == DependencyNames
  {
    var n := DependencyNames;
    assert n[..2] == ["ffmpeg", "ffprobe"] && n[..2][..1] == ["ffmpeg"] && n[..2][..1][..0] == [];
    assert MissingTools(which, n) == MissingTools(which, n[..2]) + (if Found(which, "gifsicle") then [] else ["gifsicle"]);
    assert MissingTools(which, n[..2]) == MissingTools(which, n[..2][..1]) + (if Found(which, "ffprobe") then [] else ["ffprobe"]);
    assert MissingTools(which, n[..2][..1]) == (if Found(which, "ffmpeg") then [] else ["ffmpeg"]);
  }

  // ---------------------------------------------------------------------------
  // validate_output_path

  /** What the file system says about an output path: its last component
      (`Path.name`), whether the path is a directory, whether its parent
      exists, and whether the parent is writable. */
  datatype PathFacts = PathFacts(name: string, isDir: bool, parentExists: bool, parentWritable: bool)

  /** Why an output path is refused. */
  datatype PathProblem = EmptyName | IsDirectory | NoParent | ParentNotWritable | BadCharacters

  /** The characters a file name may not contain. */
  const ForbiddenChars: set<char> := {'<', '>', ':', '"', '/', '\\', '|', '?', '*'}

  predicate HasForbiddenChar(name: string) {
    exists i :: 0 <= i < |name| && name[i] in ForbiddenChars
  }

  /** `validate_output_path`: None for an acceptable path, otherwise the first
      check that fails. */
  function ValidateOutputPath(p: PathFacts): (r: Option<PathProblem>)
    ensures r.None? <==> p.name != [] && !p.isDir && p.parentExists && p.parentWritable && !HasForbiddenChar(p.name)
  {
    if p.name == [] then Some(EmptyName)
    else if p.isDir then Some(IsDirectory)
    else if !p.parentExists then Some(NoParent)
    else if !p.parentWritable then Some(ParentNotWritable)
    else if HasForbiddenChar(p.name) then Some(BadCharacters)
    else None
  }

  /** The rank of a check in the order the checks are made. */
  function CheckRank(problem: PathProblem): nat {
    match problem
    case EmptyName => 0
    case IsDirectory => 1
    case NoParent => 2
    case ParentNotWritable => 3
    case BadCharacters => 4
  }

  /** Whether the check for `problem` fails on `p`. */
  predicate Fails(p: PathFacts, problem: PathProblem) {
    match problem
    case EmptyName => p.name == []
    case IsDirectory => p.isDir
    case NoParent => !p.parentExists
    case ParentNotWritable => !p.parentWritable
    case BadCharacters => HasForbiddenChar(p.name)
  }

  /** The problem reported is a check that fails, and every check made
      before it passes. */
  lemma FirstFailureReported(p: PathFacts, problem: PathProblem)
    ensures ValidateOutputPath(p) == Some(problem) <==>
      Fails(p, problem) && forall earlier: PathProblem :: CheckRank(earlier) < CheckRank(problem) ==> !Fails(p, earlier)
  {
    if Fails(p, problem) && forall earlier: PathProblem :: CheckRank(earlier) < CheckRank(problem) ==> !Fails(p, earlier) {
      assert CheckRank(EmptyName) == 0 && CheckRank(IsDirectory) == 1 && CheckRank(NoParent) == 2;
      assert CheckRank(ParentNotWritable) == 3;
    }
  }

  /** A name with a forbidden character is refused whatever else holds. */
  lemma ForbiddenCharRefused(p: PathFacts, i: nat)
    requires i < |p.name| && p.name[i] in ForbiddenChars
    ensures ValidateOutputPath(p).Some?
  {
  }

  // ---------------------------------------------------------------------------
  // get_video_duration

  /** A file size in bytes, or None when `stat` fails (then the size counts as 0). */
  function SizeInMiB(size: Option<nat>): real {
    if size.Some? then size.value as real / (1024.0 * 1024.0) else 0.0
  }

  /** The ffprobe timeout in seconds: five seconds plus one per whole 20 MiB,
      at least the default of ten and at most sixty. */
  function ProbeTimeout(size: Option<nat>): (t: int)
    ensures 10 <= t <= 60
  {
    var estimate := (SizeInMiB(size) / 20.0).Floor + 5;
    Min(60, Max(10, estimate))
  }

  function Max(a: int, b: int): int { if a >= b then a else b }
  function Min(a: int, b: int): int { if a <= b then a else b }

  /** A larger file never gets a shorter timeout. */
  lemma ProbeTimeoutMonotone(a: nat, b: nat)
    requires a <= b
    ensures ProbeTimeout(Some(a)) <= ProbeTimeout(Some(b))
  {
    var x := SizeInMiB(Some(a)) / 20.0;
    var y := SizeInMiB(Some(b)) / 20.0;
    assert x <= y;
    assert x.Floor <= y.Floor;
  }

  /** Files under 100 MiB (and files whose size is unknown) get the default
      ten seconds; from 1100 MiB on the timeout is sixty seconds; in between
      it is five seconds plus one per whole 20 MiB. */
  lemma ProbeTimeoutRegions(size: nat)
    ensures size < 100 * 1048576 ==> ProbeTimeout(Some(size)) == 10
    ensures size >= 1100 * 1048576 ==> ProbeTimeout(Some(size)) == 60
    ensures 100 * 1048576 <= size < 1100 * 1048576 ==> ProbeTimeout(Some(size)) == size / (20 * 1048576) + 5
    ensures ProbeTimeout(None) == 10
  {
    var x := SizeInMiB(Some(size)) / 20.0;
    assert x == size as real / (20.0 * 1048576.0);
    var q := size / (20 * 1048576);
    var rem := size % (20 * 1048576);
    assert size == q * (20 * 1048576) + rem && 0 <= rem < 20 * 1048576;
    assert x == q as real + rem as real / (20.0 * 1048576.0);
    assert x.Floor == q;
  }

  /** How the ffprobe run asked for by `get_video_duration` is made. */
  datatype ProbeCall = ProbeCall(args: seq<string>, timeout: int)

  /** The outcome of `get_video_duration`: the probe made (if any) and the duration. */
  datatype DurationQuery = DurationQuery(probe: Option<ProbeCall>, duration: Option<real>)

  /** `get_video_duration`. `answer` is what the probe's output gives once
      stripped and read as a float: None when the process exits with an error,
      times out or prints something that is not a number. A probe that cannot
      be launched at all raises out of `get_video_duration` instead, which this
      function does not model. */
  function VideoDuration(ffprobe: string, input: string, isFile: bool, size: Option<nat>,
                         answer: Option<real>): (r: DurationQuery)
    ensures r.probe.None? <==> ffprobe == "" || !isFile
    ensures r.probe.None? ==> r.duration.None?
    ensures r.probe.Some? ==>
      && r.duration == answer && r.probe.value.timeout == ProbeTimeout(size)
      && |r.probe.value.args| == 8 && r.probe.value.args[0] == ffprobe && r.probe.value.args[7] == input
  {
    if ffprobe == "" || !isFile then DurationQuery(None, None)
    else
      var args := [ffprobe, "-v", "error", "-show_entries", "format=duration",
                   "-of", "default=noprint_wrappers=1:nokey=1", input];
      DurationQuery(Some(ProbeCall(args, ProbeTimeout(size))), answer)
  }

  /** The probe's fixed flags: errors only, the container's duration, printed
      bare without section wrappers or keys. */
  lemma DurationProbeFlags(ffprobe: string, input: string, isFile: bool, size: Option<nat>, answer: Option<real>)
    requires ffprobe != "" && isFile
    ensures var a := VideoDuration(ffprobe, input, isFile, size, answer).probe.value.args;
      && a[1] == "-v" && a[2] == "error"
      && a[3] == "-show_entries" && a[4] == "format=duration"
      && a[5] == "-of" && a[6] == "default=noprint_wrappers=1:nokey=1"
  {
    ProbeArgsAt(ffprobe, input);
  }

  /** The probe's arguments with the texts left abstract. */
  lemma ProbeArgsAt(ffprobe: string, input: string)
    ensures var a := [ffprobe, "-v", "error", "-show_entries", "format=duration",
                      "-of", "default=noprint_wrappers=1:nokey=1", input];
      && a[1] == "-v" && a[2] == "error"
      && a[3] == "-show_entries" && a[4] == "format=duration"
      && a[5] == "-of" && a[6] == "default=noprint_wrappers=1:nokey=1"
  {
  }

  // ---------------------------------------------------------------------------
  // get_video_fps

  /** The frame rate in ffprobe's `num/denom` text: two integers around a single
      slash, the denominator non-zero. Anything else is None. */
  function FrameRateFromText(text: string): (r: Option<real>)
  {
    var parts := SplitOn(Strip(text), '/');
    if |parts| != 2 then None
    else
      var num := ParseInt(parts[0]);
      var denom := ParseInt(parts[1]);
      if num.None? || denom.None? || denom.value == 0 then None
      else Some(num.value as real / denom.value as real)
  }

  /** `get_video_fps`: `stdout` is the probe's output, None when the probe fails. */
  function VideoFps(stdout: Option<string>): (r: Option<real>)
    ensures stdout.None? ==> r.None?
  {
    if stdout.None? then None else FrameRateFromText(stdout.value)
  }

  /** Integer text around a slash reads back as the quotient when the
      denominator is non-zero, and as nothing when it is zero. */
  lemma FrameRateRoundTrip(num: int, denom: int)
    ensures FrameRateFromText(IntToString(num) + "/" + IntToString(denom))
      == if denom != 0 then Some(num as real / denom as real) else None
  {
    var a := IntToString(num);
    var b := IntToString(denom);
    assert a[0] == '-' || IsDigit(a[0]);
    NoSlashInInt(num);
    NoSlashInInt(denom);
    SlashPairSplit(a, b);
    ParseIntOfIntToString(num);
    ParseIntOfIntToString(denom);
    FrameRateOfParts(a, b, num, denom);
  }

  /** The text of two readable integers around the only slash reads as their quotient. */
  lemma FrameRateOfParts(a: string, b: string, num: int, denom: int)
    requires SplitOn(Strip(a + "/" + b), '/') == [a, b]
    requires ParseInt(a) == Some(num) && ParseInt(b) == Some(denom)
    ensures FrameRateFromText(a + "/" + b) == if denom != 0 then Some(num as real / denom as real) else None
  {
  }

  /** Unpadded text around one slash splits into the two sides. */
  lemma SlashPairSplit(a: string, b: string)
    requires '/' !in a && '/' !in b && a != [] && b != []
    requires !IsSpace(a[0]) && !IsSpace(b[|b| - 1])
    ensures SplitOn(Strip(a + "/" + b), '/') == [a, b]
  {
    var t := a + "/" + b;
    assert t == a + ['/'] + b;
    assert t[0] == a[0] && t[|t| - 1] == b[|b| - 1];
    StripUnpadded(t);
    SplitOnFirst(a, '/', b);
    SplitOnAbsent(b, '/');
  }

  lemma NoSlashInInt(i: int)
    ensures '/' !in IntToString(i)
  {
  }

  /** A frame rate is read only from text with exactly one slash. */
  lemma FrameRateNeedsOneSlash(text: string)
    requires FrameRateFromText(text).Some?
    ensures Count(Strip(text), '/') == 1
  {
    SplitOnCount(Strip(text), '/');
  }
}
