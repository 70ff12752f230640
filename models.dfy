/** The records the converter passes around (the job description, the tool
    locations, a command plan), and the few numeric conversions of Python that
    the model needs written out. */
module Models {
  import opened Options

  /** A Python float: its value, with the text `str()` gives for it. The model
      does not reproduce Python's shortest-repr float formatting; it carries the
      text alongside the value. */
  datatype Float = Float(value: real, text: string)

  /** Python truthiness of an optional float: present and non-zero. */
  predicate Truthy(x: Option<real>) { x.Some? && x.value != 0.0 }

  /** `int(x)` for a float: truncation toward zero. */
  function Trunc(x: real): (n: int)
    ensures 0.0 <= x ==> 0 <= n && n as real <= x < n as real + 1.0
    ensures x < 0.0 ==> n <= 0 && n as real - 1.0 < x <= n as real
  {
    if x >= 0.0 then x.Floor else -((-x).Floor)
  }

  /** The tag that identifies which step produced a plan or a line. */
  datatype LogPrefix = FfmpegRender | FfmpegPalette | GifsicleOptimize
  {
    function Value(): string {
      match this
      case FfmpegRender => "ffmpeg-render"
      case FfmpegPalette => "ffmpeg-palette"
      case GifsicleOptimize => "gifsicle-optimize"
    }
  }

  /** Locations of the three external tools. */
  datatype ToolPaths = ToolPaths(ffmpeg: string, ffprobe: string, gifsicle: string)

  /** One conversion request, as the plan builders read it. Paths are their
      string forms; `totalDuration` is the known duration in seconds, if any. */
  datatype ConversionJob = ConversionJob(
    inputFile: string,
    outputFile: string,
    fps: int,
    width: int,
    height: int,
    ditherSetting: string,
    speedMultiplier: Float,
    paletteMode: string,
    webpQuality: int,
    webpCompression: int,
    webpLossless: bool,
    loop: bool,
    totalDuration: Option<real>)

  /** A program, its argument list and the tag for its output. */
  datatype CommandPlan = CommandPlan(program: string, args: seq<string>, logPrefix: LogPrefix)

  /** The settings record the worker is built from: the job fields plus the
      three tool paths. */
  datatype ConverterSettings = ConverterSettings(
    inputFile: string,
    outputFile: string,
    fps: int,
    width: int,
    height: int,
    ditherSetting: string,
    ffmpegPath: string,
    ffprobePath: string,
    gifsiclePath: string,
    totalDuration: Option<real>,
    speedMultiplier: Float,
    webpQuality: int,
    webpCompression: int,
    webpLossless: bool,
    loop: bool,
    paletteMode: string)

  /** How an external process ended. */
  datatype ExitStatus = NormalExit | CrashExit

  /** The error kinds a process can report. */
  datatype ProcessError = FailedToStart | Crashed | Timedout | WriteError | ReadError | UnknownError

  /** A stop request sent to a running process: polite, then forced. */
  datatype StopSignal = Terminate | Kill

  /** What the operating system answers when a process is started and waited
      for: it started, or it did not, with the error text. */
  datatype Launch = Launched | LaunchFailed(error: string)
}
