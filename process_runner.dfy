/** `ProcessRunner`: runs one external program at a time and turns its
    standard output and standard error, which arrive in arbitrary chunks, into
    complete non-empty lines tagged with the log prefix of the current step.
    The operating-system process is abstracted to what the runner can observe:
    the program and arguments it was started with, whether it is still
    running, and the stop requests sent to it. */
module Runner {
  import opened Options
  import opened Models
  import opened TextLines

  /** The child process: what was launched, whether it is still running, and
      the terminate/kill requests sent to it, in order. */
  datatype Child = Child(program: string, args: seq<string>, running: bool, signals: seq<StopSignal>)

  /** The log prefix handed to `start`: a step tag, whose `value` is used, or
      any other value, which is turned into text. */
  datatype PrefixArg = Tagged(tag: LogPrefix) | Plain(text: string)

  function PrefixText(p: PrefixArg): string {
    match p
    case Tagged(tag) => tag.Value()
    case Plain(text) => text
  }

  /** The pending partial line as a list: one line, or none when it is empty. */
  function Pending(buffer: string): seq<string> {
    if buffer != "" then [buffer] else []
  }

  // ---------------------------------------------------------------------------
  // The line reader shared by both streams

  /** One stream of the runner: `done` is the text received since the last
      start before the partial line still held in `buffer`. The held text has
      no line break, and the text before it is empty or ends at one. */
  ghost predicate StreamInvariant(done: string, buffer: string) {
    NoBreak(buffer) && (done == [] || IsBreak(done[|done| - 1]))
  }

  /** The emit loop: every non-empty piece is handed on, in order. */
  method EmitNonEmpty(pieces: seq<string>) returns (lines: seq<string>)
    ensures lines == NonEmpty(pieces)
  {
    lines := [];
    for i := 0 to |pieces|
      invariant lines == NonEmpty(pieces[..i])
    {
      assert pieces[..i + 1][..i] == pieces[..i];
      if pieces[i] != "" {
        lines := lines + [pieces[i]];
      }
    }
    assert pieces[..|pieces|] == pieces;
  }

  /** Reading a chunk on top of the held partial line: the complete non-empty
      lines are handed on and the text after the last line break is held, or
      "" when the text ends in one. */
  method ReadChunk(buffer: string, chunk: string) returns (lines: seq<string>, kept: string)
    ensures lines == Emitted(buffer + chunk) && kept == Kept(buffer + chunk)
  {
    var data := buffer + chunk;
    var parts := Split(data);
    kept := if data != [] && !IsBreak(data[|data| - 1]) then parts[|parts| - 1] else "";
    var toProcess := if kept != "" then parts[..|parts| - 1] else parts;
    lines := EmitNonEmpty(toProcess);
  }

  /** At every moment the lines handed on since the last start (the lines of
      `done`), followed by the held partial line, are the lines of all the
      text received since then. */
  lemma StreamLines(done: string, buffer: string)
    requires StreamInvariant(done, buffer)
    ensures Lines(done) + Pending(buffer) == Lines(done + buffer)
  {
    LinesAfterBreak(done, buffer);
    LinesOfLine(buffer);
  }

  lemma Regroup(done: string, buffer: string, chunk: string, u: string, k: string)
    requires buffer + chunk == u + k
    ensures (done + u) + k == (done + buffer) + chunk
  {
    assert (done + u) + k == done + (u + k);
    assert (done + buffer) + chunk == done + (buffer + chunk);
  }

  lemma EndsAtBreak(done: string, u: string)
    requires done == [] || IsBreak(done[|done| - 1])
    requires u == [] || IsBreak(u[|u| - 1])
    ensures var x := done + u; x == [] || IsBreak(x[|x| - 1])
  {
    if u != [] {
      assert (done + u)[|done + u| - 1] == u[|u| - 1];
    } else {
      assert done + u == done;
    }
  }

  /** Reading a chunk keeps the stream invariant, the text received so far
      grows by exactly the chunk, and the lines handed on for the chunk are
      exactly the new lines of the text before the held partial line: how the
      text was cut into chunks makes no difference. */
  lemma StreamStep(done: string, buffer: string, chunk: string)
    requires StreamInvariant(done, buffer)
    ensures var s := buffer + chunk;
      && StreamInvariant(done + Completed(s), Kept(s))
      && (done + Completed(s)) + Kept(s) == (done + buffer) + chunk
      && Lines(done + Completed(s)) == Lines(done) + Emitted(s)
  {
    var s := buffer + chunk;
    var u := Completed(s);
    CompletePart(s);
    KeptIsTrailingPartialLine(s);
    LinesAfterBreak(done, u);
    EndsAtBreak(done, u);
    Regroup(done, buffer, chunk, u, Kept(s));
  }


  class ProcessRunner {
    var process: Option<Child>
    var stdoutBuffer: string
    var stderrBuffer: string
    var logPrefix: string
    var lastError: string
    /** The standard output received since the last start, up to the held
        partial line: its lines are the lines handed on. */
    ghost var stdoutDone: string
    /** The same for standard error. */
    ghost var stderrDone: string

    ghost predicate Valid()
      reads this
    {
      && StreamInvariant(stdoutDone, stdoutBuffer)
      && StreamInvariant(stderrDone, stderrBuffer)
    }

    constructor ()
      ensures Valid()
      ensures process == None && stdoutBuffer == "" && stderrBuffer == ""
      ensures logPrefix == "" && lastError == ""
    {
      process := None;
      stdoutBuffer := "";
      stderrBuffer := "";
      logPrefix := "";
      lastError := "";
      stdoutDone, stderrDone := "", "";
    }

    /** `last_error_string` */
    function LastErrorString(): string
      reads this
    {
      lastError
    }

    /** `is_running`: a process is held and has not stopped. */
    predicate IsRunning()
      reads this
    {
      process.Some? && process.value.running
    }

    /** `start`. A second start while a process runs is refused and changes
        nothing but the error text. Otherwise both buffers are emptied and the
        prefix recorded before the launch; a launch that fails leaves no
        process and keeps the launcher's error text. */
    method Start(program: string, arguments: seq<string>, prefix: PrefixArg, launch: Launch) returns (ok: bool)
      requires Valid()
      modifies this
      ensures Valid()
      ensures old(IsRunning()) ==>
        && !ok && lastError == "Process already running"
        && process == old(process) && logPrefix == old(logPrefix)
        && stdoutBuffer == old(stdoutBuffer) && stderrBuffer == old(stderrBuffer)
        && stdoutDone == old(stdoutDone) && stderrDone == old(stderrDone)
      ensures !old(IsRunning()) ==>
        && stdoutBuffer == "" && stderrBuffer == "" && logPrefix == PrefixText(prefix)
        && stdoutDone == "" && stderrDone == ""
        && (launch.Launched? ==>
              ok && process == Some(Child(program, arguments, true, [])) && lastError == old(lastError))
        && (launch.LaunchFailed? ==> !ok && process == None && lastError == launch.error)
    {
      if IsRunning() {
        lastError := "Process already running";
        return false;
      }
      stdoutBuffer := "";
      stderrBuffer := "";
      logPrefix := PrefixText(prefix);
      stdoutDone, stderrDone := "", "";
      process := Some(Child(program, arguments, true, []));
      match launch
      case LaunchFailed(error) =>
        lastError := error;
        process := None;
        return false;
      case Launched =>
        return true;
    }

    /** `terminate`: ask a running process to stop; otherwise nothing. */
    method Terminate()
      modifies this`process
      ensures old(IsRunning()) ==>
        process == Some(old(process.value).(signals := old(process.value.signals) + [StopSignal.Terminate]))
      ensures !old(IsRunning()) ==> process == old(process)
    {
      if IsRunning() {
        process := Some(process.value.(signals := process.value.signals + [StopSignal.Terminate]));
      }
    }

    /** `kill`: force a running process to stop; otherwise nothing. */
    method Kill()
      modifies this`process
      ensures old(IsRunning()) ==>
        process == Some(old(process.value).(signals := old(process.value.signals) + [StopSignal.Kill]))
      ensures !old(IsRunning()) ==> process == old(process)
    {
      if IsRunning() {
        process := Some(process.value.(signals := process.value.signals + [StopSignal.Kill]));
      }
    }

    /** The child stops on its own (or after a signal): it is held, but no
        longer running, until the finished notification releases it. */
    method ChildStopped()
      modifies this`process
      ensures process == if old(process).Some? then Some(old(process.value).(running := false)) else None
    {
      if process.Some? {
        process := Some(process.value.(running := false));
      }
    }

    /** `_on_ready_read_stdout`: with no process held, nothing happens;
        otherwise the chunk is read on top of the held partial line, the
        complete non-empty lines are handed on with the prefix and the new
        partial line is held. Standard error is not touched. */
    method OnReadyReadStdout(chunk: string) returns (lines: seq<string>, prefix: string)
      requires Valid()
      modifies this`stdoutBuffer, this`stdoutDone
      ensures Valid()
      ensures prefix == logPrefix
      ensures old(process).None? ==>
        lines == [] && stdoutBuffer == old(stdoutBuffer)
        && stdoutDone == old(stdoutDone)
      ensures old(process).Some? ==>
        && lines == Emitted(old(stdoutBuffer) + chunk)
        && stdoutBuffer == Kept(old(stdoutBuffer) + chunk)
        && stdoutDone + stdoutBuffer == old(stdoutDone + stdoutBuffer) + chunk
        && Lines(stdoutDone) == old(Lines(stdoutDone)) + lines
    {
      prefix := logPrefix;
      if process.None? {
        return [], prefix;
      }
      var done, buffer := stdoutDone, stdoutBuffer;
      StreamStep(done, buffer, chunk);
      var kept;
      lines, kept := ReadChunk(buffer, chunk);
      stdoutBuffer := kept;
      stdoutDone := done + Completed(buffer + chunk);
    }

    /** `_on_ready_read_stderr`: the same for standard error, leaving standard
        output untouched. */
    method OnReadyReadStderr(chunk: string) returns (lines: seq<string>, prefix: string)
      requires Valid()
      modifies this`stderrBuffer, this`stderrDone
      ensures Valid()
      ensures prefix == logPrefix
      ensures old(process).None? ==>
        lines == [] && stderrBuffer == old(stderrBuffer)
        && stderrDone == old(stderrDone)
      ensures old(process).Some? ==>
        && lines == Emitted(old(stderrBuffer) + chunk)
        && stderrBuffer == Kept(old(stderrBuffer) + chunk)
        && stderrDone + stderrBuffer == old(stderrDone + stderrBuffer) + chunk
        && Lines(stderrDone) == old(Lines(stderrDone)) + lines
    {
      prefix := logPrefix;
      if process.None? {
        return [], prefix;
      }
      var done, buffer := stderrDone, stderrBuffer;
      StreamStep(done, buffer, chunk);
      var kept;
      lines, kept := ReadChunk(buffer, chunk);
      stderrBuffer := kept;
      stderrDone := done + Completed(buffer + chunk);
    }

    /** `_on_finished`: releases the process and reports the exit together
        with the prefix recorded by the last start. A held partial line is
        not reported. */
    method OnFinished(exitCode: int, status: ExitStatus) returns (code: int, st: ExitStatus, prefix: string)
      modifies this`process
      ensures process == None && !IsRunning()
      ensures code == exitCode && st == status && prefix == old(logPrefix)
    {
      prefix := logPrefix;
      process := None;
      code, st := exitCode, status;
    }

    /** `_on_error`: reports the error with the current prefix and changes nothing. */
    method OnError(error: ProcessError) returns (err: ProcessError, prefix: string)
      ensures err == error && prefix == logPrefix
    {
      err, prefix := error, logPrefix;
    }
  }
}
