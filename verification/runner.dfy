/** `run_command` in `deploy_kit/subprocess_utils.py` without threads, clocks or
    processes: the child process is an oracle describing what it printed and how
    it ended, and the streaming loop is a fold over the events the main loop and
    the indicator thread observe, in one interleaving. */
module Runner {
  import opened Wrappers
  import opened Text
  import Split
  import Progress

  datatype RunResult = RunResult(returncode: int, stdout: string, stderr: string)

  /** The diagnostic part of a failure message: which captured text was chosen
      and that text, stripped (before it is shortened). */
  datatype Detail = NoDetail | WithText(stream: string, text: string)

  /** The three failures `run_command` raises. A timeout carries the
      `timeout` argument (seconds) that its message quotes. */
  datatype RunError =
    | NotFound(program: string)
    | TimedOut(timeout: Option<real>, commandLine: string)
    | Failed(exitCode: int, commandLine: string, detail: Detail)

  /** `" ".join(cmd)`. */
  function CommandLine(cmd: seq<string>): string {
    Split.Join(cmd, " ")
  }

  /** `"".join(lines)`. */
  function Concat(lines: seq<string>): string {
    if lines == [] then "" else lines[0] + Concat(lines[1..])
  }

  lemma {:induction false} ConcatSnoc(lines: seq<string>, line: string)
    ensures Concat(lines + [line]) == Concat(lines) + line
    decreases |lines|
  {
    if lines != [] {
      assert (lines + [line])[1..] == lines[1..] + [line];
      ConcatSnoc(lines[1..], line);
    }
  }

  // ---------------------------------------------------------------------
  // Streaming mode: the consume loop
  // ---------------------------------------------------------------------

  /** What the short wait after the child has exited fetched from the queue:
      a line (received at `atMs`), the reader's sentinel, or nothing in time. */
  datatype Late = LateLine(line: string, atMs: int) | LateEnd | NothingLate

  /** What the loop sees: a line from the queue (received at `atMs`), the
      reader's `None` sentinel, a wake-up of the indicator thread, or a queue
      timeout after which the child was found exited, with what the short
      wait then fetched. */
  datatype Event = Output(line: string, atMs: int) | EndOfOutput | IndicatorWake(nowMs: int) | ExitedPoll(late: Late)

  /** The events at which the loop leaves: the sentinel, however it arrives,
      and a wait after exit that fetched nothing. */
  predicate EndsLoop(e: Event) {
    e.EndOfOutput? || (e.ExitedPoll? && !e.late.LateLine?)
  }

  /** The events that hand the loop a line: a queued line, or one fetched in
      the wait after exit. */
  predicate Delivers(e: Event) {
    e.Output? || (e.ExitedPoll? && e.late.LateLine?)
  }

  function LineOf(e: Event): string
    requires Delivers(e)
  {
    if e.Output? then e.line else e.late.line
  }

  function ArrivalOf(e: Event): int
    requires Delivers(e)
  {
    if e.Output? then e.atMs else e.late.atMs
  }

  /** The loop's state: lines kept for diagnostics, text echoed to stdout, text
      written to stderr by the indicator, the indicator, and the activity clock. */
  datatype Stream = Stream(lines: seq<string>, echoed: string, err: string,
                           indicator: Option<Progress.Indicator>, lastActivityMs: int)

  predicate ValidStream(st: Stream) {
    st.indicator.Some? ==> Progress.ValidIndicator(st.indicator.value)
  }

  /** The lines the events deliver before the loop leaves, in order. */
  function LinesBeforeEnd(events: seq<Event>): seq<string> {
    if events == [] || EndsLoop(events[0]) then []
    else if Delivers(events[0]) then [LineOf(events[0])] + LinesBeforeEnd(events[1..])
    else LinesBeforeEnd(events[1..])
  }

  /** A line clears a visible indicator first, then is kept, echoed, and
      marks activity. */
  function TakeLine(st: Stream, line: string, atMs: int): (r: Stream)
    requires ValidStream(st)
    ensures ValidStream(r)
    ensures r.lines == st.lines + [line] && r.echoed == st.echoed + line && r.lastActivityMs == atMs
    ensures r.indicator.Some? <==> st.indicator.Some?
    ensures r.indicator.Some? ==> !r.indicator.value.shown
    ensures st.indicator.None? ==> r.err == st.err
  {
    var cleared := if st.indicator.Some? then Some(Progress.ClearIndicator(st.indicator.value)) else None;
    Stream(st.lines + [line], st.echoed + line,
           st.err + (if cleared.Some? then cleared.value.out else ""),
           if cleared.Some? then Some(cleared.value.ind) else None, atMs)
  }

  /** One event inside the loop: a delivered line is taken, a wake-up is one
      indicator tick. */
  function StepStream(st: Stream, e: Event, fmt: int -> string): (r: Stream)
    requires ValidStream(st) && !EndsLoop(e)
    ensures ValidStream(r)
    ensures Delivers(e) ==>
      && r.lines == st.lines + [LineOf(e)] && r.echoed == st.echoed + LineOf(e)
      && r.lastActivityMs == ArrivalOf(e)
    ensures Delivers(e) && r.indicator.Some? ==> !r.indicator.value.shown
    ensures e.IndicatorWake? ==> r.lines == st.lines && r.echoed == st.echoed && r.lastActivityMs == st.lastActivityMs
    ensures r.indicator.Some? <==> st.indicator.Some?
    ensures st.indicator.None? ==> r.err == st.err
  {
    if e.IndicatorWake? then
      if st.indicator.Some? then
        var s := Progress.Tick(st.indicator.value, e.nowMs, st.lastActivityMs, fmt);
        st.(err := st.err + s.out, indicator := Some(s.ind))
      else st
    else
      TakeLine(st, LineOf(e), ArrivalOf(e))
  }

  /** The loop: events in order until it leaves. */
  function Consume(st: Stream, events: seq<Event>, fmt: int -> string): (r: Stream)
    requires ValidStream(st)
    ensures ValidStream(r)
    ensures r.indicator.Some? <==> st.indicator.Some?
    ensures st.indicator.None? ==> r.err == st.err
    decreases |events|
  {
    if events == [] || EndsLoop(events[0]) then st
    else Consume(StepStream(st, events[0], fmt), events[1..], fmt)
  }

  /** Lines are kept in delivery order until the loop leaves, and what was
      echoed is exactly their concatenation. */
  lemma {:induction false} ConsumeKeepsLines(st: Stream, events: seq<Event>, fmt: int -> string)
    requires ValidStream(st) && st.echoed == Concat(st.lines)
    ensures Consume(st, events, fmt).lines == st.lines + LinesBeforeEnd(events)
    ensures Consume(st, events, fmt).echoed == Concat(Consume(st, events, fmt).lines)
    decreases |events|
  {
    if events != [] && !EndsLoop(events[0]) {
      var next := StepStream(st, events[0], fmt);
      if Delivers(events[0]) {
        ConcatSnoc(st.lines, LineOf(events[0]));
      }
      ConsumeKeepsLines(next, events[1..], fmt);
      assert st.lines + LinesBeforeEnd(events) == next.lines + LinesBeforeEnd(events[1..]);
    }
  }

  // The loop as written: after a queue timeout with the child exited, the
  // item fetched by the short wait is followed by `continue`, so a line (or
  // the sentinel) fetched there is never processed.

  /** Where the loop as written leaves: the queued sentinel, or a wait after
      exit that fetched nothing. */
  predicate EndsLoopAsWritten(e: Event) {
    e.EndOfOutput? || (e.ExitedPoll? && e.late.NothingLate?)
  }

  /** The lines the loop as written keeps: only queued ones. */
  function LinesBeforeEndAsWritten(events: seq<Event>): seq<string> {
    if events == [] || EndsLoopAsWritten(events[0]) then []
    else if events[0].Output? then [events[0].line] + LinesBeforeEndAsWritten(events[1..])
    else LinesBeforeEndAsWritten(events[1..])
  }

  /** The loop as written: a wait after exit that fetched something is
      skipped, whatever it fetched. */
  function ConsumeAsWritten(st: Stream, events: seq<Event>, fmt: int -> string): (r: Stream)
    requires ValidStream(st)
    ensures ValidStream(r)
    ensures r.indicator.Some? <==> st.indicator.Some?
    ensures st.indicator.None? ==> r.err == st.err
    decreases |events|
  {
    if events == [] || EndsLoopAsWritten(events[0]) then st
    else if events[0].ExitedPoll? then ConsumeAsWritten(st, events[1..], fmt)
    else ConsumeAsWritten(StepStream(st, events[0], fmt), events[1..], fmt)
  }

  /** The loop as written keeps and echoes the queued lines only, in order. */
  lemma {:induction false} ConsumeAsWrittenLines(st: Stream, events: seq<Event>, fmt: int -> string)
    requires ValidStream(st) && st.echoed == Concat(st.lines)
    ensures ConsumeAsWritten(st, events, fmt).lines == st.lines + LinesBeforeEndAsWritten(events)
    ensures ConsumeAsWritten(st, events, fmt).echoed == Concat(ConsumeAsWritten(st, events, fmt).lines)
    decreases |events|
  {
    if events != [] && !EndsLoopAsWritten(events[0]) {
      if events[0].ExitedPoll? {
        ConsumeAsWrittenLines(st, events[1..], fmt);
      } else {
        var next := StepStream(st, events[0], fmt);
        if Delivers(events[0]) {
          ConcatSnoc(st.lines, LineOf(events[0]));
        }
        ConsumeAsWrittenLines(next, events[1..], fmt);
        assert st.lines + LinesBeforeEndAsWritten(events) == next.lines + LinesBeforeEndAsWritten(events[1..]);
      }
    }
  }

  /** As written, a last line the reader queues just after the loop saw the
      child exit is fetched by the short wait and then dropped: the run's
      output misses it. The corrected loop keeps it. */
  lemma LateLineLostAsWritten(line: string, atMs: int, fmt: int -> string)
    ensures var events := [ExitedPoll(LateLine(line, atMs)), ExitedPoll(NothingLate)];
      var start := Stream([], "", "", None, 0);
      && ConsumeAsWritten(start, events, fmt).lines == []
      && Consume(start, events, fmt).lines == [line]
  {
    var events := [ExitedPoll(LateLine(line, atMs)), ExitedPoll(NothingLate)];
    var start := Stream([], "", "", None, 0);
    ConsumeAsWrittenLines(start, events, fmt);
    ConsumeKeepsLines(start, events, fmt);
    assert events[1..] == [ExitedPoll(NothingLate)];
  }

  /** When no wait after exit fetches anything, the loop as written and the
      corrected loop keep the same lines. */
  lemma {:induction false} AsWrittenAgrees(events: seq<Event>)
    requires forall k :: 0 <= k < |events| ==> !(events[k].ExitedPoll? && !events[k].late.NothingLate?)
    ensures LinesBeforeEndAsWritten(events) == LinesBeforeEnd(events)
    decreases |events|
  {
    if events != [] {
      AsWrittenAgrees(events[1..]);
    }
  }

  // ---------------------------------------------------------------------
  // How a run ends
  // ---------------------------------------------------------------------

  /** The child's fate: its exit code, or still running at the deadline. */
  datatype Exit = Code(code: int) | Deadline

  /** The failure detail in streaming mode: the stripped combined output, if any. */
  function StreamDetail(lines: seq<string>): (d: Detail)
    ensures d.NoDetail? <==> Strip(Concat(lines)) == ""
    ensures d.WithText? ==>
      && d.stream == "stdout/stderr" && d.text != "" && IsStripped(d.text)
      && exists k :: InfixAt(d.text, Concat(lines), k)
  {
    var combined := Strip(Concat(lines));
    if combined != "" then WithText("stdout/stderr", combined) else NoDetail
  }

  /** The failure detail in capture mode: stderr when it has text, else stdout
      when it has text, else nothing. */
  function CaptureDetail(stdout: string, stderr: string): (d: Detail)
    ensures d.NoDetail? <==> Strip(stderr) == "" && Strip(stdout) == ""
    ensures d.WithText? ==> d.text != "" && IsStripped(d.text)
    ensures d.WithText? ==> (d.stream == "stderr" <==> Strip(stderr) != "")
    ensures d.WithText? && d.stream == "stderr" ==> exists k :: InfixAt(d.text, stderr, k)
    ensures d.WithText? && d.stream != "stderr" ==> d.stream == "stdout" && exists k :: InfixAt(d.text, stdout, k)
  {
    if Strip(stderr) != "" then WithText("stderr", Strip(stderr))
    else if Strip(stdout) != "" then WithText("stdout", Strip(stdout))
    else NoDetail
  }

  /** The end of streaming mode after the loop: a result only for exit code 0,
      with the kept lines as stdout and no stderr. */
  function FinishStream(cmd: seq<string>, timeout: Option<real>, lines: seq<string>, exit: Exit): (r: Result<RunResult, RunError>)
    ensures r.Success? <==> exit == Code(0)
    ensures r.Success? ==> r.value == RunResult(0, Concat(lines), "")
    ensures exit.Deadline? ==> r == Failure(TimedOut(timeout, CommandLine(cmd)))
    ensures exit.Code? && exit.code != 0 ==> r == Failure(Failed(exit.code, CommandLine(cmd), StreamDetail(lines)))
  {
    match exit
    case Deadline => Failure(TimedOut(timeout, CommandLine(cmd)))
    case Code(c) =>
      if c != 0 then Failure(Failed(c, CommandLine(cmd), StreamDetail(lines)))
      else Success(RunResult(c, Concat(lines), ""))
  }

  /** The end of capture mode: a result only for exit code 0, with both
      captured streams. */
  function FinishCapture(cmd: seq<string>, timeout: Option<real>, stdout: string, stderr: string, exit: Exit): (r: Result<RunResult, RunError>)
    ensures r.Success? <==> exit == Code(0)
    ensures r.Success? ==> r.value == RunResult(0, stdout, stderr)
    ensures exit.Deadline? ==> r == Failure(TimedOut(timeout, CommandLine(cmd)))
    ensures exit.Code? && exit.code != 0 ==> r == Failure(Failed(exit.code, CommandLine(cmd), CaptureDetail(stdout, stderr)))
  {
    match exit
    case Deadline => Failure(TimedOut(timeout, CommandLine(cmd)))
    case Code(c) =>
      if c != 0 then Failure(Failed(c, CommandLine(cmd), CaptureDetail(stdout, stderr)))
      else Success(RunResult(c, stdout, stderr))
  }

  // ---------------------------------------------------------------------
  // run_command
  // ---------------------------------------------------------------------

  /** One call's arguments; `timeout` is in seconds, `None` for no deadline. */
  datatype Invocation = Invocation(
    cmd: seq<string>,
    timeout: Option<real>,
    streamOutput: bool,
    spinnerMessage: Option<string>,
    progress: Progress.Overrides)

  /** The child process as seen from outside: not found on the path, or run
      with the events the loop and the indicator thread observe (in capture
      mode only the wake-ups matter), its separately captured streams
      (capture mode), and how it ended. */
  datatype Child = Missing | Ran(events: seq<Event>, stdout: string, stderr: string, exit: Exit)

  /** The ambient facts of a call: process-wide defaults, the environment, a
      number parser, whether stderr is a terminal, the clock at the start, the
      default message text, and the elapsed-time formatter. */
  datatype Ambient = Ambient(
    defaults: Progress.Settings,
    env: Progress.Env,
    parse: string -> Option<int>,
    stderrIsTty: bool,
    startMs: int,
    defaultMessage: string,
    fmt: int -> string)

  /** What a call did: its result or failure, whether an indicator was started,
      the indicator's state after `stop`, and everything written to stderr. */
  datatype Run = Run(result: Result<RunResult, RunError>, indicatorStarted: bool,
                     finalIndicator: Option<Progress.Indicator>, err: string)

  /** The settings of this call: argument, else environment, else default. */
  function Effective(inv: Invocation, amb: Ambient): Progress.Settings {
    Progress.Resolve(inv.progress, Progress.SettingsFromEnv(amb.env, amb.parse), amb.defaults)
  }

  /** The indicator is drawn only when progress is on and stderr is a terminal. */
  predicate CanRender(inv: Invocation, amb: Ambient) {
    Effective(inv, amb).show && amb.stderrIsTty
  }

  /** `spinner_message or default`: an empty message counts as none. */
  function ProgressMessage(inv: Invocation, amb: Ambient): string {
    if inv.spinnerMessage.Some? && inv.spinnerMessage.value != "" then inv.spinnerMessage.value
    else amb.defaultMessage
  }

  /** The indicator either mode starts: the call's message, the frames of the
      effective style, the effective interval and idle threshold (clamped),
      started at the call's start. */
  function NewIndicator(inv: Invocation, amb: Ambient): (ind: Progress.Indicator)
    ensures Progress.ValidIndicator(ind) && !ind.shown && ind.idx == 0
    ensures ind.line.message == ProgressMessage(inv, amb)
    ensures ind.line.frames == Progress.SelectFrames(Effective(inv, amb).style)
    ensures ind.intervalMs == Progress.Max(Effective(inv, amb).intervalMs, Progress.MinSleepMs)
    ensures ind.idleMs == Progress.Max(Effective(inv, amb).idleMs, 0)
    ensures ind.startMs == amb.startMs
  {
    var s := Effective(inv, amb);
    Progress.StartIndicator(ProgressMessage(inv, amb), s.style, s.intervalMs, s.idleMs, amb.startMs)
  }

  /** The indicator's style and idle threshold follow the precedence: the
      call's argument, else the environment variable, else the default. */
  lemma IndicatorPrecedence(inv: Invocation, amb: Ambient)
    ensures var ind := NewIndicator(inv, amb);
      && (inv.progress.style.Some? ==> ind.line.frames == Progress.SelectFrames(inv.progress.style.value))
      && (inv.progress.style.None? && "CLI_PROGRESS_STYLE" in amb.env ==>
            ind.line.frames == Progress.SelectFrames(amb.env["CLI_PROGRESS_STYLE"]))
      && (inv.progress.style.None? && "CLI_PROGRESS_STYLE" !in amb.env ==>
            ind.line.frames == Progress.SelectFrames(amb.defaults.style))
      && (inv.progress.idleMs.Some? ==> ind.idleMs == Progress.Max(inv.progress.idleMs.value, 0))
      && (inv.progress.idleMs.None? && Progress.ParseEnvMillis(amb.env, "CLI_PROGRESS_IDLE_SECONDS", amb.parse).Some? ==>
            ind.idleMs == Progress.Max(Progress.ParseEnvMillis(amb.env, "CLI_PROGRESS_IDLE_SECONDS", amb.parse).value, 0))
      && (inv.progress.idleMs.None? && Progress.ParseEnvMillis(amb.env, "CLI_PROGRESS_IDLE_SECONDS", amb.parse).None? ==>
            ind.idleMs == Progress.Max(amb.defaults.idleMs, 0))
  {
  }

  /** `stop()` in a `finally`: clears whatever is shown. */
  function StopAll(ind: Option<Progress.Indicator>): (r: (Option<Progress.Indicator>, string))
    requires ind.Some? ==> Progress.ValidIndicator(ind.value)
    ensures r.0.Some? <==> ind.Some?
    ensures r.0.Some? ==> !r.0.value.shown && r.0.value == ind.value.(shown := false)
    ensures ind.Some? && !ind.value.shown ==> r.1 == ""
    ensures ind.None? ==> r.1 == ""
  {
    if ind.Some? then
      var s := Progress.ClearIndicator(ind.value);
      (Some(s.ind), s.out)
    else (None, "")
  }

  /** The wake-ups of the capture-mode indicator: nothing is read while the
      child runs, so the last activity stays at the start. */
  function CaptureWakes(events: seq<Event>, startMs: int): (ws: seq<Progress.Wake>)
    ensures forall j :: 0 <= j < |ws| ==> ws[j].lastActivityMs == startMs
  {
    if events == [] then []
    else (if events[0].IndicatorWake? then [Progress.Wake(events[0].nowMs, startMs)] else [])
         + CaptureWakes(events[1..], startMs)
  }

  /** Every wake-up event is one of the capture-mode wake-ups. */
  lemma {:induction false} CaptureWakeAt(events: seq<Event>, startMs: int, k: int) returns (j: int)
    requires 0 <= k < |events| && events[k].IndicatorWake?
    ensures 0 <= j < |CaptureWakes(events, startMs)|
    ensures CaptureWakes(events, startMs)[j] == Progress.Wake(events[k].nowMs, startMs)
    decreases k
  {
    var head := if events[0].IndicatorWake? then [Progress.Wake(events[0].nowMs, startMs)] else [];
    assert CaptureWakes(events, startMs) == head + CaptureWakes(events[1..], startMs);
    if k == 0 {
      j := 0;
    } else {
      assert events[1..][k - 1] == events[k];
      var i := CaptureWakeAt(events[1..], startMs, k - 1);
      j := |head| + i;
    }
  }

  /** The events the child produced; none when it was not found. */
  function EventsOf(child: Child): seq<Event> {
    if child.Ran? then child.events else []
  }

  /** Capture mode's indicator: ticks at each wake-up while the child runs,
      then `stop()`. The state after `stop` and all it wrote. */
  function CaptureIndicator(ind: Option<Progress.Indicator>, events: seq<Event>, amb: Ambient): (r: (Option<Progress.Indicator>, string))
    requires ind.Some? ==> Progress.ValidIndicator(ind.value)
    ensures r.0.Some? <==> ind.Some?
    ensures r.0.Some? ==> !r.0.value.shown
    ensures ind.None? ==> r.1 == ""
  {
    if ind.Some? then
      var ticked := Progress.RunTicks(ind.value, CaptureWakes(events, amb.startMs), amb.fmt);
      var stopped := StopAll(Some(ticked.0));
      (stopped.0, ticked.1 + stopped.1)
    else (None, "")
  }

  /** `run_command(cmd, ...)`. The argument vector is non-empty, as `Popen`
      and `run` demand. */
  function RunCommand(inv: Invocation, amb: Ambient, child: Child): (run: Run)
    requires |inv.cmd| >= 1
    ensures child.Missing? ==> run.result == Failure(NotFound(inv.cmd[0]))
    ensures child.Ran? ==> (run.result.Success? <==> child.exit == Code(0))
    ensures child.Ran? && child.exit.Deadline? ==> run.result == Failure(TimedOut(inv.timeout, CommandLine(inv.cmd)))
    ensures child.Ran? && child.exit.Code? && child.exit.code != 0 && inv.streamOutput ==>
      run.result == Failure(Failed(child.exit.code, CommandLine(inv.cmd), StreamDetail(LinesBeforeEndAsWritten(child.events))))
    ensures child.Ran? && child.exit.Code? && child.exit.code != 0 && !inv.streamOutput ==>
      run.result == Failure(Failed(child.exit.code, CommandLine(inv.cmd), CaptureDetail(child.stdout, child.stderr)))
    ensures run.result.Success? && inv.streamOutput ==>
      run.result.value == RunResult(0, Concat(LinesBeforeEndAsWritten(child.events)), "")
    ensures run.result.Success? && !inv.streamOutput ==>
      run.result.value == RunResult(0, child.stdout, child.stderr)
    ensures run.indicatorStarted ==> CanRender(inv, amb)
    ensures run.indicatorStarted <==> CanRender(inv, amb) && (child.Ran? || !inv.streamOutput)
    ensures !CanRender(inv, amb) ==> run.err == ""
    ensures run.indicatorStarted <==> run.finalIndicator.Some?
    ensures run.finalIndicator.Some? ==> !run.finalIndicator.value.shown
  {
    var canRender := CanRender(inv, amb);
    if inv.streamOutput then
      match child
      case Missing => Run(Failure(NotFound(inv.cmd[0])), false, None, "")
      case Ran(events, _, _, exit) =>
        var ind := if canRender then Some(NewIndicator(inv, amb)) else None;
        var st := ConsumeAsWritten(Stream([], "", "", ind, amb.startMs), events, amb.fmt);
        ConsumeAsWrittenLines(Stream([], "", "", ind, amb.startMs), events, amb.fmt);
        assert st.lines == LinesBeforeEndAsWritten(events);
        var stopped := StopAll(st.indicator);
        Run(FinishStream(inv.cmd, inv.timeout, st.lines, exit), canRender, stopped.0, st.err + stopped.1)
    else
      var ind := if canRender then Some(NewIndicator(inv, amb)) else None;
      var shown := CaptureIndicator(ind, EventsOf(child), amb);
      match child
      case Missing => Run(Failure(NotFound(inv.cmd[0])), canRender, shown.0, shown.1)
      case Ran(_, stdout, stderr, exit) =>
        Run(FinishCapture(inv.cmd, inv.timeout, stdout, stderr, exit), canRender, shown.0, shown.1)
  }

  /** `run_command` with the streaming loop corrected: a line the wait after
      exit fetches is taken like any other. Capture mode and a missing
      program are as in `RunCommand`. */
  function RunCommandCorrected(inv: Invocation, amb: Ambient, child: Child): (run: Run)
    requires |inv.cmd| >= 1
    ensures !(inv.streamOutput && child.Ran?) ==> run == RunCommand(inv, amb, child)
    ensures inv.streamOutput && child.Ran? ==>
      run.result == FinishStream(inv.cmd, inv.timeout, LinesBeforeEnd(child.events), child.exit)
    ensures run.result.Success? && inv.streamOutput ==>
      run.result.value == RunResult(0, Concat(LinesBeforeEnd(child.events)), "")
    ensures run.indicatorStarted <==> CanRender(inv, amb) && (child.Ran? || !inv.streamOutput)
    ensures run.indicatorStarted <==> run.finalIndicator.Some?
    ensures run.finalIndicator.Some? ==> !run.finalIndicator.value.shown
    ensures !CanRender(inv, amb) ==> run.err == ""
  {
    if inv.streamOutput && child.Ran? then StreamCorrected(inv, amb, child.events, child.exit)
    else RunCommand(inv, amb, child)
  }

  /** The streaming branch of `RunCommandCorrected`. */
  function StreamCorrected(inv: Invocation, amb: Ambient, events: seq<Event>, exit: Exit): (run: Run)
    ensures run.result == FinishStream(inv.cmd, inv.timeout, LinesBeforeEnd(events), exit)
    ensures run.indicatorStarted == CanRender(inv, amb)
    ensures run.indicatorStarted <==> run.finalIndicator.Some?
    ensures run.finalIndicator.Some? ==> !run.finalIndicator.value.shown
    ensures !CanRender(inv, amb) ==> run.err == ""
  {
    var ind := if CanRender(inv, amb) then Some(NewIndicator(inv, amb)) else None;
    var st := Consume(Stream([], "", "", ind, amb.startMs), events, amb.fmt);
    ConsumeKeepsLines(Stream([], "", "", ind, amb.startMs), events, amb.fmt);
    assert st.lines == LinesBeforeEnd(events);
    var stopped := StopAll(st.indicator);
    Run(FinishStream(inv.cmd, inv.timeout, st.lines, exit), CanRender(inv, amb), stopped.0, st.err + stopped.1)
  }

  /** The run that shows the lost line: the child's only line arrives in the
      wait after exit. As written the run succeeds with empty stdout; the
      corrected run's stdout is that line. */
  lemma RunLosesLateLine(inv: Invocation, amb: Ambient, line: string, atMs: int)
    requires |inv.cmd| >= 1 && inv.streamOutput
    ensures var child := Ran([ExitedPoll(LateLine(line, atMs)), ExitedPoll(NothingLate)], "", "", Code(0));
      && RunCommand(inv, amb, child).result == Success(RunResult(0, "", ""))
      && RunCommandCorrected(inv, amb, child).result == Success(RunResult(0, line, ""))
  {
    var events := [ExitedPoll(LateLine(line, atMs)), ExitedPoll(NothingLate)];
    assert events[1..] == [ExitedPoll(NothingLate)];
    assert LinesBeforeEndAsWritten(events) == [];
    assert LinesBeforeEnd(events) == [line];
    assert Concat([line]) == line;
  }

  /** When no wait after exit fetches anything, the run as written and the
      corrected run give the same result. */
  lemma CorrectedAgrees(inv: Invocation, amb: Ambient, child: Child)
    requires |inv.cmd| >= 1
    requires child.Ran? ==> forall k :: 0 <= k < |child.events| ==>
      !(child.events[k].ExitedPoll? && !child.events[k].late.NothingLate?)
    ensures RunCommandCorrected(inv, amb, child).result == RunCommand(inv, amb, child).result
  {
    if child.Ran? {
      AsWrittenAgrees(child.events);
    }
  }

  /** Capture mode shows progress while the child runs: a wake-up at least the
      effective idle threshold after the start draws a frame, so something is
      written to stderr and the frame index has advanced. */
  lemma CaptureShowsProgress(inv: Invocation, amb: Ambient, child: Child, k: int)
    requires |inv.cmd| >= 1 && !inv.streamOutput && CanRender(inv, amb) && child.Ran?
    requires 0 <= k < |child.events| && child.events[k].IndicatorWake?
    requires child.events[k].nowMs - amb.startMs >= Progress.Max(Effective(inv, amb).idleMs, 0)
    ensures RunCommand(inv, amb, child).err != ""
    ensures RunCommand(inv, amb, child).finalIndicator.Some?
    ensures RunCommand(inv, amb, child).finalIndicator.value.idx >= 1
  {
    var ind := NewIndicator(inv, amb);
    var wakes := CaptureWakes(child.events, amb.startMs);
    var j := CaptureWakeAt(child.events, amb.startMs, k);
    assert Progress.IsIdle(ind, wakes[j]);
    Progress.IdleWakeDraws(ind, wakes, amb.fmt, j);
  }
}
