/** main of the profiler as a whole: parse the command line, check the
    redirect files, run the measurement loop and report, stopping at the
    first failure. */
module Profiler {
  import opened Common
  import opened Arguments
  import opened Streams
  import opened Timing
  import opened Reporting

  /** What a successful run prints after its loop: the lines the loop wrote,
      whether the crash warning appears, and the measured duration (in
      microseconds) with the unit and number it is printed as. */
  datatype Summary = Summary(lines: seq<Line>, crashWarning: bool, duration: real, unit: TimeUnit, shown: real)

  /** How main ends: EXIT_FAILURE with the error it reports and the lines
      written before it, or EXIT_SUCCESS with the summary. */
  datatype Report = Failed(error: Error, lines: seq<Line>) | Finished(summary: Summary)

  /** The closing lines for the accumulator and exit_code the loop left. */
  function Summarize(duration: real, exitCode: int, lines: seq<Line>): (s: Summary)
    ensures s.crashWarning <==> exitCode != 0
    ensures s.duration == duration && s.lines == lines
    ensures s.shown * MicrosPer(s.unit) == duration
  {
    Summary(lines, exitCode != 0, duration, UnitFor(duration), Shown(duration))
  }

  /** The measurement loop and the report that follows it, for a parsed
      configuration whose redirect files have been checked. */
  function Measure(c: Config, launcher: Launcher): Report {
    match Loop(c, launcher, c.count)
    case Aborted(what, lines) => Failed(LaunchFailed(what), lines)
    case Running(_, a, code, lines) => Finished(Summarize(a.duration, code, lines))
  }

  /** The whole of main; args are the tokens after the program name. */
  function Profile(args: seq<string>, fs: FileSystem, launcher: Launcher): Report {
    match Parse(args)
    case Err(e) => Failed(e, [])
    case Ok(c) =>
      match ValidateStreams(c, fs)
      case Some(e) => Failed(e, [])
      case None => Measure(c, launcher)
  }

  /** main's sequence of steps, each returning EXIT_FAILURE on its error. */
  method RunProfiler(args: seq<string>, fs: FileSystem, launcher: Launcher) returns (r: Report)
    ensures r == Profile(args, fs, launcher)
  {
    var parsed := ParseArguments(args);
    if parsed.Err? {
      return Failed(parsed.error, []);
    }
    var c := parsed.value;
    var invalid := ValidateStreams(c, fs);
    if invalid.Some? {
      return Failed(invalid.value, []);
    }
    var finished := RunIterations(c, launcher);
    match finished {
      case Stopped(what, lines) =>
        return Failed(LaunchFailed(what), lines);
      case Completed(a, code, lines) =>
        return Finished(Summarize(a.duration, code, lines));
    }
  }

  // ---------------------------------------------------------------------------
  // End-to-end properties
  // ---------------------------------------------------------------------------

  /** Failures before the loop print nothing from the loop; otherwise main is
      the measurement of the parsed configuration. */
  lemma ProfileSteps(args: seq<string>, fs: FileSystem, launcher: Launcher)
    ensures Parse(args).Err? ==> Profile(args, fs, launcher) == Failed(Parse(args).error, [])
    ensures Parse(args).Ok? && ValidateStreams(Parse(args).value, fs).Some? ==>
      Profile(args, fs, launcher) == Failed(ValidateStreams(Parse(args).value, fs).value, [])
    ensures Parse(args).Ok? && ValidateStreams(Parse(args).value, fs) == None ==>
      Profile(args, fs, launcher) == Measure(Parse(args).value, launcher)
  {
  }

  /** The measurement succeeds exactly when every one of the count launches
      exits; a failed launch is reported with the first failure's message. */
  lemma MeasureFinishesIff(c: Config, launcher: Launcher)
    ensures Measure(c, launcher).Finished? <==> AllExited(launcher, InvocationOf(c), c.count)
    ensures Measure(c, launcher).Failed? ==>
      && Measure(c, launcher).error.LaunchFailed?
      && (exists i :: 0 <= i < c.count
           && launcher(InvocationOf(c), i) == LaunchError(Measure(c, launcher).error.what)
           && AllExited(launcher, InvocationOf(c), i))
  {
    LoopAbortsAtFirstFailure(c, launcher, c.count);
  }

  /** main succeeds exactly when the command line parses, every redirect
      file opens, and every launch exits. */
  lemma FinishesIff(args: seq<string>, fs: FileSystem, launcher: Launcher)
    ensures Profile(args, fs, launcher).Finished? <==>
      && Parse(args).Ok?
      && ValidateStreams(Parse(args).value, fs) == None
      && AllExited(launcher, InvocationOf(Parse(args).value), Parse(args).value.count)
  {
    if Parse(args).Ok? && ValidateStreams(Parse(args).value, fs) == None {
      MeasureFinishesIff(Parse(args).value, launcher);
    }
  }

  /** The elapsed times that enter the average: every run but the second
      one of five or more, in order. */
  function AveragedSamples(c: Config, launcher: Launcher): seq<nat> {
    Samples(launcher, InvocationOf(c), RetainedIterations(c.count, c.count))
  }

  /** A finished measurement reports the running average of the averaged
      samples: every run but the second one of five or more. */
  lemma MeasuredAverage(c: Config, launcher: Launcher)
    requires c.count >= 1 && Measure(c, launcher).Finished?
    ensures var s := AveragedSamples(c, launcher);
      && |s| == (if c.count >= 5 then c.count - 1 else c.count)
      && s != []
      && Measure(c, launcher).summary.duration == AddAll(s).duration
  {
    MeasureFinishesIff(c, launcher);
    LoopSamples(c, launcher, c.count);
    LoopAverage(c, launcher, c.count);
    RetainedLength(c.count);
  }

  /** The reported duration in closed form: (2*s1 + s2 + ... + sk) / (k + 1)
      with k = count - 1 for five or more runs and k = count otherwise. */
  lemma MeasuredDuration(c: Config, launcher: Launcher)
    requires c.count >= 1 && Measure(c, launcher).Finished?
    ensures var s := AveragedSamples(c, launcher);
      s != [] && Measure(c, launcher).summary.duration == Real(s[0] + Sum(s)) / Real(|s| + 1)
  {
    MeasuredAverage(c, launcher);
    ClosedForm(AveragedSamples(c, launcher));
  }

  /** The crash warning depends on the last run's exit code only. */
  lemma MeasuredCrashWarning(c: Config, launcher: Launcher)
    requires c.count >= 1 && Measure(c, launcher).Finished?
    ensures Measure(c, launcher).summary.crashWarning <==> launcher(InvocationOf(c), c.count - 1).exitCode != 0
  {
    MeasureFinishesIff(c, launcher);
    LoopSamples(c, launcher, c.count);
  }

  /** The exit-code line appears, once, only for a single run; the progress
      line counts 1 .. count when all three streams are redirected. */
  lemma MeasuredLines(c: Config, launcher: Launcher)
    requires Measure(c, launcher).Finished?
    ensures var lines := Measure(c, launcher).summary.lines;
      && (c.count == 1 ==> ExitCodes(lines) == [launcher(InvocationOf(c), 0).exitCode])
      && (c.count != 1 ==> ExitCodes(lines) == [])
      && ProgressMarks(lines) == if ShowsProgress(c) then UpTo(c.count) else []
  {
    MeasureFinishesIff(c, launcher);
    LoopLines(c, launcher, c.count);
  }

  /** The number printed, read in the unit printed, is the measured duration;
      that duration is never negative, and it is printed in nanoseconds only
      when every averaged sample is zero. */
  lemma MeasuredShown(c: Config, launcher: Launcher)
    requires c.count >= 1 && Measure(c, launcher).Finished?
    ensures var s := Measure(c, launcher).summary;
      && s.shown * MicrosPer(s.unit) == s.duration
      && s.duration >= 0.0
      && (s.unit == Nanoseconds <==>
            forall j :: 0 <= j < |AveragedSamples(c, launcher)| ==> AveragedSamples(c, launcher)[j] == 0)
  {
    MeasuredAverage(c, launcher);
    AverageZeroIff(AveragedSamples(c, launcher));
  }

  // ---------------------------------------------------------------------------
  // A worked run
  // ---------------------------------------------------------------------------

  /** A child that runs 10, 20 and 30 microseconds and crashes on its third run. */
  function BenchRuns(inv: Invocation, i: nat): Launch {
    Exited(10 * (i + 1), if i == 2 then 1 else 0)
  }

  /** Three runs with stdin redirected, so nothing is written during the loop. */
  const BenchConfig := Config("bench", 3, "in.txt", "", "", [])

  lemma BenchFirstRun()
    ensures Loop(BenchConfig, BenchRuns, 1) == Running([10], Average(false, 10.0, 2.0), 0, [])
  {
  }

  lemma BenchSecondRun()
    ensures Loop(BenchConfig, BenchRuns, 2) == Running([10, 20], Average(false, 40.0 / 3.0, 3.0), 0, [])
  {
    BenchFirstRun();
  }

  /** Three runs of 10, 20 and 30 microseconds are reported as 17.5
      microseconds, not as their mean 20, and the crash of the last run
      raises the warning. */
  lemma ExampleThreeRuns()
    ensures Measure(BenchConfig, BenchRuns) == Finished(Summary([], true, 17.5, Microseconds, 17.5))
  {
    BenchSecondRun();
    assert Loop(BenchConfig, BenchRuns, 3) == Running([10, 20, 30], Average(false, 17.5, 4.0), 1, []);
  }
}
