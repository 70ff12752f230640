/** The arithmetic and the decisions of the converter's window: the integer
    spin box's wheel handling, the number checks made before a conversion
    starts, the options that follow the output's suffix, and the progress
    bar's mode. Widgets are reduced to the fields these handlers write. */
module Ui {
  import opened Options
  import opened Strings
  import Utils
  import Engine
  import WorkerLogic
  import Models

  // ---------------------------------------------------------------------------
  // WheelSpinBox.wheelEvent

  /** `max(lo, min(hi, v))` */
  function Clamp(v: int, lo: int, hi: int): (r: int)
    ensures lo <= hi ==> lo <= r <= hi
    ensures lo <= v <= hi ==> r == v
    ensures lo <= hi && v > hi ==> r == hi
    ensures v < lo ==> r == lo
    ensures lo > hi ==> r == lo
  {
    if v > hi then (if lo >= hi then lo else hi) else if v < lo then lo else v
  }

  /** The step of one wheel notch: 1 with Ctrl held, five times the box's step
      with Shift (and no Ctrl), the box's step otherwise. */
  function WheelStep(step: int, ctrl: bool, shift: bool): (r: int)
    ensures ctrl ==> r == 1
    ensures !ctrl && shift ==> r == 5 * step
    ensures !ctrl && !shift ==> r == step
  {
    if ctrl then 1 else if shift then step * 5 else step
  }

  /** The value the wheel handler starts from: the text as an integer, or the
      minimum when the text is not one. */
  function WheelStart(text: string, minimum: int): (r: int)
    ensures ParseInt(text).Some? ==> r == ParseInt(text).value
    ensures ParseInt(text).None? ==> r == minimum
  {
    match ParseInt(text)
    case Some(v) => v
    case None => minimum
  }

  /** The value a wheel turn of `angle` eighths of a degree leaves in the box:
      whole notches of 120 (rounded toward minus infinity), a jump from -1 to 0
      on a turn up, and the result clamped to the box's range. A turn of less
      than one notch up leaves the starting value, brought into the range. */
  function WheelValue(text: string, angle: int, ctrl: bool, shift: bool,
                      step: int, minimum: int, maximum: int): (r: int)
    ensures minimum <= maximum ==> minimum <= r <= maximum
    ensures 0 <= angle < 120 ==> r == Clamp(WheelStart(text, minimum), minimum, maximum)
  {
    WheelMove(WheelStart(text, minimum), angle, ctrl, shift, step, minimum, maximum)
  }

  /** The value a wheel turn leaves when the box starts from `val`: the start
      moved by whole notches times the notch's step, or 0 when a box showing -1
      is turned up, saturated at the range's ends. */
  function WheelMove(val: int, angle: int, ctrl: bool, shift: bool,
                     step: int, minimum: int, maximum: int): (r: int)
    ensures minimum <= maximum ==> minimum <= r <= maximum
    ensures !(val == -1 && angle / 120 > 0) ==>
      var t := val + (angle / 120) * WheelStep(step, ctrl, shift);
      && (minimum <= t <= maximum ==> r == t)
      && (minimum <= maximum && t > maximum ==> r == maximum)
      && (t < minimum ==> r == minimum)
    ensures val == -1 && angle >= 120 ==>
      && (minimum <= 0 <= maximum ==> r == 0)
      && (minimum <= maximum && maximum < 0 ==> r == maximum)
      && (0 < minimum ==> r == minimum)
  {
    var delta := angle / 120;
    var moved := if val == -1 && delta > 0 then 0 else val + delta * WheelStep(step, ctrl, shift);
    if minimum == -1 then Clamp(moved, -1, maximum) else Clamp(moved, minimum, maximum)
  }

  /** A spin box that is a line edit: its step, its range, and its text. */
  class WheelSpinBox {
    const step: int
    const minimum: int
    const maximum: int
    var text: string

    /** The box starts out showing its minimum. */
    constructor(step: int, minimum: int, maximum: int)
      ensures this.step == step && this.minimum == minimum && this.maximum == maximum
      ensures text == IntToString(minimum)
    {
      this.step := step;
      this.minimum := minimum;
      this.maximum := maximum;
      text := IntToString(minimum);
    }

    /** `wheelEvent`: the new value is written back as text. */
    method WheelEvent(angle: int, ctrl: bool, shift: bool)
      modifies this`text
      ensures text == IntToString(WheelValue(old(text), angle, ctrl, shift, step, minimum, maximum))
    {
      var parsed := ParseInt(text);
      var val: int;
      if parsed.Some? {
        val := parsed.value;
      } else {
        val := minimum;
      }
      var delta := angle / 120;
      var notch: int;
      if ctrl {
        notch := 1;
      } else if shift {
        notch := step * 5;
      } else {
        notch := step;
      }
      assert notch == WheelStep(step, ctrl, shift);
      ghost var expected := WheelMove(val, angle, ctrl, shift, step, minimum, maximum);
      if val == -1 && delta > 0 {
        val := 0;
      } else {
        val := val + delta * notch;
      }
      if minimum == -1 {
        val := Clamp(val, -1, maximum);
      } else {
        val := Clamp(val, minimum, maximum);
      }
      assert val == expected;
      text := IntToString(val);
    }
  }

  /** The text the handler writes reads back as the value it computed, so the
      next turn continues from it. */
  lemma WheelTextReadsBack(text: string, angle: int, ctrl: bool, shift: bool, step: int, minimum: int, maximum: int)
    ensures var v := WheelValue(text, angle, ctrl, shift, step, minimum, maximum);
      WheelStart(IntToString(v), minimum) == v
  {
    ParseIntOfIntToString(WheelValue(text, angle, ctrl, shift, step, minimum, maximum));
  }

  /** From -1, any turn of at least one notch up gives 0 before clamping,
      whatever the step and the modifiers. */
  lemma WheelLeavesMinusOne(text: string, angle: int, ctrl: bool, shift: bool, step: int, minimum: int, maximum: int)
    requires ParseInt(text) == Some(-1) && angle >= 120
    ensures WheelValue(text, angle, ctrl, shift, step, minimum, maximum) == Clamp(0, minimum, maximum)
  {
  }

  /** Text that is not an integer counts as the minimum. */
  lemma WheelFromUnreadableText(text: string, angle: int, ctrl: bool, shift: bool, step: int, minimum: int, maximum: int)
    requires ParseInt(text).None?
    ensures WheelValue(text, angle, ctrl, shift, step, minimum, maximum)
      == WheelValue(IntToString(minimum), angle, ctrl, shift, step, minimum, maximum)
  {
    ParseIntOfIntToString(minimum);
    assert WheelStart(IntToString(minimum), minimum) == minimum == WheelStart(text, minimum);
  }

  /** Within the range and with a non-negative step, turning up never lowers
      the value and turning down never raises it. */
  lemma WheelDirection(text: string, angle: int, ctrl: bool, shift: bool, step: int, minimum: int, maximum: int)
    requires step >= 0 && minimum <= maximum
    requires ParseInt(text).Some? && minimum <= ParseInt(text).value <= maximum
    ensures var v := WheelValue(text, angle, ctrl, shift, step, minimum, maximum);
      && (angle >= 0 ==> v >= ParseInt(text).value)
      && (angle < 0 ==> v <= ParseInt(text).value)
  {
    var val := ParseInt(text).value;
    var delta := angle / 120;
    var notch := WheelStep(step, ctrl, shift);
    assert notch >= 0;
    if angle >= 0 {
      assert delta >= 0;
      assert delta * notch >= 0;
    } else {
      assert delta < 0;
      assert delta * notch <= 0;
    }
  }

  // ---------------------------------------------------------------------------
  // start_conversion's checks

  /** Why a conversion is not started. */
  datatype StartProblem =
    | InputMissing
    | BadOutput(problem: Utils.PathProblem)
    | NotAnInteger
    | BadFps
    | ZeroSize
    | NegativeSize

  /** The frame rate and output size as entered. */
  datatype Numbers = Numbers(fps: int, width: int, height: int)

  datatype StartCheck = Accepted(numbers: Numbers) | Refused(problem: StartProblem)

  /** An acceptable frame rate: -1 (keep the source's) or positive. */
  predicate FpsAllowed(fps: int) { fps == -1 || fps > 0 }

  /** An acceptable width or height: -1 (keep the aspect) or positive. */
  predicate SizeAllowed(n: int) { n == -1 || n > 0 }

  /** The number fields are read in the order fps, width, height; then the
      frame rate is checked, then a zero size, then a size below -1. */
  function CheckNumbers(fpsText: string, widthText: string, heightText: string): (r: StartCheck)
    ensures r.Accepted? <==>
      && ParseInt(fpsText).Some? && ParseInt(widthText).Some? && ParseInt(heightText).Some?
      && FpsAllowed(ParseInt(fpsText).value)
      && SizeAllowed(ParseInt(widthText).value) && SizeAllowed(ParseInt(heightText).value)
    ensures r.Accepted? ==>
      r.numbers == Numbers(ParseInt(fpsText).value, ParseInt(widthText).value, ParseInt(heightText).value)
    ensures r.Refused? ==> r.problem in {NotAnInteger, BadFps, ZeroSize, NegativeSize}
  {
    match (ParseInt(fpsText), ParseInt(widthText), ParseInt(heightText))
    case (Some(fps), Some(w), Some(h)) =>
      if fps < -1 || fps == 0 then Refused(BadFps)
      else if w == 0 || h == 0 then Refused(ZeroSize)
      else if w < -1 || h < -1 then Refused(NegativeSize)
      else Accepted(Numbers(fps, w, h))
    case _ => Refused(NotAnInteger)
  }

  /** `start_conversion`'s checks in their order: the input file, the output
      path, then the numbers. */
  function CheckStart(inputIsFile: bool, output: Utils.PathFacts,
                      fpsText: string, widthText: string, heightText: string): (r: StartCheck)
    ensures r.Accepted? <==>
      inputIsFile && Utils.ValidateOutputPath(output).None? && CheckNumbers(fpsText, widthText, heightText).Accepted?
    ensures !inputIsFile ==> r == Refused(InputMissing)
  {
    if !inputIsFile then Refused(InputMissing)
    else
      match Utils.ValidateOutputPath(output)
      case Some(problem) => Refused(BadOutput(problem))
      case None => CheckNumbers(fpsText, widthText, heightText)
  }

  /** For numbers typed as integers, a conversion starts exactly when the
      frame rate is -1 or positive and each size is -1 or positive; a refused
      frame rate is reported before any size problem. */
  lemma CheckNumbersOfIntegers(fps: int, width: int, height: int)
    ensures var r := CheckNumbers(IntToString(fps), IntToString(width), IntToString(height));
      && (r == Accepted(Numbers(fps, width, height)) <==> FpsAllowed(fps) && SizeAllowed(width) && SizeAllowed(height))
      && (!FpsAllowed(fps) ==> r == Refused(BadFps))
      && (FpsAllowed(fps) && (width == 0 || height == 0) ==> r == Refused(ZeroSize))
  {
    ParseIntOfIntToString(fps);
    ParseIntOfIntToString(width);
    ParseIntOfIntToString(height);
  }

  /** A field that is not an integer is reported as such, whatever the other
      fields hold. */
  lemma UnreadableNumberRefused(fpsText: string, widthText: string, heightText: string)
    requires ParseInt(fpsText).None? || ParseInt(widthText).None? || ParseInt(heightText).None?
    ensures CheckNumbers(fpsText, widthText, heightText) == Refused(NotAnInteger)
  {
  }

  // ---------------------------------------------------------------------------
  // _update_webp_options_state and _update_progress_bar

  /** Which option widgets are enabled, and the two texts that follow the output type. */
  datatype OptionStates = OptionStates(
    dither: bool,
    webpQuality: bool,
    webpCompression: bool,
    losslessBox: bool,
    paletteMode: bool,
    buttonText: string,
    windowTitle: string)

  /** The option states for an output path and the lossless box's check mark. */
  function WebpOptionStates(outputText: string, losslessChecked: bool): (r: OptionStates)
    ensures r.dither == r.paletteMode == !r.losslessBox
    ensures r.webpQuality == r.webpCompression == (r.losslessBox && !losslessChecked)
    ensures r.losslessBox <==> Engine.IsWebpOutput(outputText)
    ensures r.buttonText == (if r.losslessBox then "Generate WebP" else "Generate GIF")
    ensures r.windowTitle == (if r.losslessBox then "Video to WebP Converter" else "Video to GIF Converter")
  {
    var webp := EndsWith(Lower(outputText), ".webp");
    OptionStates(!webp, webp && !losslessChecked, webp && !losslessChecked, webp, !webp,
                 if webp then "Generate WebP" else "Generate GIF",
                 if webp then "Video to WebP Converter" else "Video to GIF Converter")
  }

  /** The window's option widgets follow the same suffix test the worker uses
      to pick the WebP path: the GIF-only options are enabled exactly when the
      worker will produce a GIF. */
  lemma OptionsFollowWorker(s: Models.ConverterSettings, losslessChecked: bool)
    ensures WebpOptionStates(s.outputFile, losslessChecked).losslessBox <==> WorkerLogic.IsWebp(s)
    ensures WebpOptionStates(s.outputFile, losslessChecked).dither <==> !WorkerLogic.IsWebp(s)
  {
  }

  /** The progress bar's label: the text given, or the percentage when it is empty. */
  function ProgressLabel(value: int, text: string): (shown: string)
    ensures text != "" ==> shown == text
    ensures text == "" ==> |shown| > |"Progress: %"| && shown[..10] == "Progress: " && shown[|shown| - 1] == '%'
  {
    if text != "" then text else "Progress: " + IntToString(value) + "%"
  }

  /** The default label reads back as the value it shows. */
  lemma ProgressLabelShowsValue(value: int)
    ensures var shown := ProgressLabel(value, "");
      ParseInt(shown[10..|shown| - 1]) == Some(value)
  {
    var shown := ProgressLabel(value, "");
    assert shown[10..|shown| - 1] == IntToString(value);
    ParseIntOfIntToString(value);
  }

  /** The part of the window these handlers write: the progress bar's range,
      value and label, and the option widgets' states. */
  class ConverterWindow {
    var barMinimum: int
    var barMaximum: int
    var barValue: int
    var barLabel: string
    var options: OptionStates

    /** An indeterminate ("busy") bar has an empty range. */
    predicate Indeterminate()
      reads this
    {
      barMinimum == 0 && barMaximum == 0
    }

    /** The window as `_init_ui` leaves it: the bar at 0 of 0..100 with the
        default label, every option widget enabled (none of them is disabled
        until the output text or the lossless box first changes), and the
        GIF texts. */
    constructor()
      ensures barMinimum == 0 && barMaximum == 100 && barValue == 0 && barLabel == ProgressLabel(0, "")
      ensures BarConsistent()
      ensures options.dither && options.webpQuality && options.webpCompression
      ensures options.losslessBox && options.paletteMode
      ensures options.buttonText == "Generate GIF" && options.windowTitle == "Video to GIF Converter"
    {
      barMinimum, barMaximum, barValue := 0, 100, 0;
      barLabel := "Progress: 0%";
      options := OptionStates(true, true, true, true, true, "Generate GIF", "Video to GIF Converter");
    }

    /** The bar has one of the two ranges this window gives it, busy or
        0..100, and, as Qt keeps it, a value inside the range or -1, one below
        it, after a reset. */
    predicate BarConsistent()
      reads this
    {
      barMinimum == 0 && (barMaximum == 0 || barMaximum == 100) && -1 <= barValue <= barMaximum
    }

    /** `_update_progress_bar`: a negative value makes the bar indeterminate;
        otherwise the range is 0..100 and the value is shown. Qt's
        `setRange` resets a value that falls outside the new range to one
        below it (-1), and `setValue` ignores a value outside a non-empty
        range, so entering the busy mode keeps a value of 0 or -1 and turns
        any other into -1, and a value above 100 leaves the bar's value as it
        was. */
    method UpdateProgressBar(value: int, text: string)
      requires BarConsistent()
      modifies this`barMinimum, this`barMaximum, this`barValue, this`barLabel
      ensures BarConsistent()
      ensures Indeterminate() <==> value < 0
      ensures value < 0 ==> barValue == (if old(barValue) == 0 then 0 else -1)
      ensures value >= 0 ==> barMinimum == 0 && barMaximum == 100
      ensures 0 <= value <= 100 ==> barValue == value
      ensures value > 100 ==> barValue == old(barValue)
      ensures barLabel == ProgressLabel(value, text)
    {
      if value < 0 {
        if barMinimum != 0 || barMaximum != 0 {
          barMinimum, barMaximum := 0, 0;
          if barValue < -1 || barValue > 0 {
            barValue := -1;
          }
        }
      } else {
        // Leaving the busy range keeps the value: -1 and 0 both fit 0..100.
        barMinimum, barMaximum := 0, 100;
        if value <= 100 {
          barValue := value;
        }
      }
      barLabel := ProgressLabel(value, text);
    }

    /** `_update_webp_options_state`, run whenever the output text changes. */
    method UpdateWebpOptionsState(outputText: string, losslessChecked: bool)
      modifies this`options
      ensures options == WebpOptionStates(outputText, losslessChecked)
    {
      var webp := EndsWith(Lower(outputText), ".webp");
      options := OptionStates(!webp, webp && !losslessChecked, webp && !losslessChecked, webp, !webp,
                              if webp then "Generate WebP" else "Generate GIF",
                              if webp then "Video to WebP Converter" else "Video to GIF Converter");
    }
  }

  /** The bar's mode for a value: indeterminate for a negative one, otherwise
      the value, limited to the bar's range. */
  datatype BarMode = Busy | Percent(value: int)

  function BarModeOf(value: int): (m: BarMode)
    ensures m.Busy? <==> value < 0
    ensures m.Percent? ==> m.value == value
  {
    if value < 0 then Busy else Percent(value)
  }

  /** Every progress value the worker sends puts the bar either in busy mode
      (the worker's -1 while no duration is known) or at a percentage from 0
      to 100. */
  lemma WorkerProgressFitsBar(events: seq<WorkerLogic.Event>, i: nat)
    requires WorkerLogic.ProgressCapped(events)
    requires i < |events| && events[i].Progress?
    ensures BarModeOf(events[i].value).Busy? || 0 <= BarModeOf(events[i].value).value <= 100
  {
  }
}
