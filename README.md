# Simple executable profiler, modelled in Dafny

The profiler is a single C++ program (`main.cpp`). It runs an executable a
given number of times, one run after another, and reports the average
wall-clock duration of a run. It works in four stages:

1. It scans the command line into a run configuration: the executable, the
   repeat count (`--count`), up to three redirect files (`--in`, `--out`,
   `--err`) and, after the word `process`, the child's own arguments.
2. It checks that each redirect file that was named can be opened.
3. It launches the child `count` times. Every launch is timed in whole
   microseconds. The second run of five or more is left out of the average.
4. It prints a crash warning when the last exit code is non-zero. It prints
   the duration in nanoseconds, microseconds, milliseconds or seconds,
   depending on its size.

The model has one module per stage, plus a module for main as a whole:

- `Common`: the error kinds and the `Option`/`Result` wrappers.
- `Arguments`: the option table, the digit check, `std::stoull` as the
  decimal value of the token, and the scan.
- `Streams`: the stream bindings, and the file-open checks against a
  file-system oracle.
- `Timing`: the launch loop against a launcher oracle, the warm-up rule and
  the running average.
- `Reporting`: the unit ladder.
- `Profiler`: main's sequence of stages and the properties that hold end to
  end.

Where the source changes local variables step by step, the model is a
method with a loop:

- the iterator loop of the scan is `Arguments.ParseArguments`;
- the inner `process` loop is `Arguments.TakeRemaining`;
- the measurement loop is `Timing.RunIterations`.

Each method is proved equal to a function, and the function is what the
lemmas talk about.

The model follows the code in three places where a reader of the option
names and the tool's purpose would expect something else:

- **The average.** One would expect a plain running mean. In the code the
  counter `n` starts at 1 and is incremented before the first sample is
  added, so the first sample counts twice. The samples 10, 20 and 30 are
  reported as 17.5, not 20 (`Timing.ExampleThreeSamples`,
  `Profiler.ExampleThreeRuns`). The closed form is
  (2·s1 + s2 + … + sk) / (k + 1) (`Timing.ClosedForm`).
- **The crash warning.** One would expect a warning when any run exits
  non-zero. The code tests only the exit code of the last run
  (`Profiler.MeasuredCrashWarning`).
- **stderr.** One would expect stderr to follow `--err`. The code decides
  the stderr binding by whether `--out` was given: `--err` alone leaves
  stderr inherited, and `--out` alone binds stderr to the empty path
  (`Streams.ErrorStreamFollowsOutput`).

## Model

| member | source | states |
|---|---|---|
| Arguments.StringCase | main.cpp:16-28 | The code is 1 only for `--count`; 2 only for `--in`, `--out` and `--err`; 3 only for `process`; 0 for every other token. |
| Arguments.FindFirstNotOf | main.cpp:33 | Gives None exactly when every character occurs in the set. Otherwise it gives the index of the first character that does not, with every earlier character in the set. |
| Arguments.IsDigits | main.cpp:31-34 | True exactly when every character is a decimal digit, so the empty string passes. |
| Arguments.DecimalRoundTrip | main.cpp:82 | Reading the shortest decimal spelling of n gives n back. |
| Arguments.Stoull | main.cpp:81-91 | invalid_argument exactly when there is no leading digit. A converted value never exceeds 2^64 - 1. On an all-digit string: out_of_range exactly when its decimal value exceeds 2^64 - 1, and otherwise the value itself. |
| Arguments.CountValue | main.cpp:73-97 | The checks on the `--count` value, each as an iff: a non-digit, then the empty string (invalid_argument), then the value above 2^64 - 1, then zero. Otherwise the count is the decimal value, between 1 and 2^64 - 1. |
| Arguments.ReadCount | main.cpp:73-97 | The statements of the `--count` case compute CountValue of the value token. |
| Arguments.Defaults | main.cpp:49-56 | Definition: the state before the scan, with count 1, empty paths and no child arguments. |
| Arguments.SetPath | main.cpp:108-113 | Definition: the if/else-if chain that stores a path under `--in`, `--out` or `--err`, and leaves the configuration alone for any other word. |
| Arguments.Scan | main.cpp:58-125 | A successful scan keeps the executable and keeps the count within 1 .. 2^64 - 1. It never reports a missing executable. |
| Arguments.Parse | main.cpp:40-49 | Missing executable exactly when there are no tokens. On success the executable is the first token and the count is within 1 .. 2^64 - 1. |
| Arguments.TakeRemaining | main.cpp:117-123 | The `process` loop appends every later token, in order, and stops on the last token. |
| Arguments.ParseArguments | main.cpp:40-125 | The iterator loop returns exactly Parse of the tokens, the error included. |
| Arguments.ApplyFlags | main.cpp:58-115 | Options never change the executable or the child's arguments. |
| Arguments.ScanFlag | main.cpp:66-115 | Scanning one well-formed option with its value applies that option and goes on. The value is taken verbatim, even when it is an option word. |
| Arguments.ScanFlags | main.cpp:58-115 | Scanning a list of well-formed options applies them in order. |
| Arguments.ParseFlags | main.cpp:46-125 | A command line made of options only yields the defaults with those options applied. |
| Arguments.ParseOnlyExecutable | main.cpp:49-56 | The executable alone yields count 1, no redirect paths and no child arguments. |
| Arguments.ParseMissingValue | main.cpp:66-106 | An option that needs a value, given as the last token, is an "unexpected end" error. |
| Arguments.ParseIllegal | main.cpp:62-64 | An unknown token is an error naming that token, whatever follows it. |
| Arguments.ParseProcess | main.cpp:117-123 | `process` takes every later token verbatim and ends the scan. Options before it have their effect. |
| Arguments.ParseCount | main.cpp:66-99 | The outcome of `--count v` for each class of v: the four errors, or the count set to the value of v with the scan going on. |
| Arguments.ApplyFlagsAppend | main.cpp:58-125 | Applying two lists of options one after the other is the same as applying their concatenation. |
| Arguments.LastFlagWins | main.cpp:82-113 | After the last occurrence of an option, its field holds that occurrence's value. |
| Arguments.ApplyRendered | main.cpp:52-113 | The four options of a spelled-out configuration set the four fields. |
| Arguments.ParseRender | main.cpp:46-125 | Every configuration with a count in 1 .. 2^64 - 1 is what its own spelling parses to. |
| Arguments.ExampleValueTakenVerbatim | main.cpp:108-109 | `--in --out` stores the path `--out`. |
| Arguments.ExampleProcessSwallowsOptions | main.cpp:117-123 | `process --count 3` passes both words to the child, and the count stays 1. |
| Arguments.LeadingZero | main.cpp:82 | A leading zero keeps a digit string a digit string and does not change its value. |
| Arguments.ParseLeadingZero | main.cpp:73-97 | Leading zeros in the `--count` value are ignored: `0` followed by a non-empty digit string parses as that string, whatever follows. |
| Arguments.TwentyDigitsTooLarge | main.cpp:81-86 | Any twenty-digit count that starts with 9 is rejected as too large. |
| Arguments.ExampleCountTooLarge | main.cpp:81-86 | Twenty nines are rejected as too large. |
| Streams.Requested | main.cpp:127-128 | A stream is inherited exactly when its path is empty. Otherwise it is bound to that path. |
| Streams.Redirect | main.cpp:127-191 | stdin and stdout are inherited exactly when their own path is empty. stderr is inherited exactly when the OUTPUT path is empty, and otherwise it is bound to the `--err` path. |
| Streams.InputAndOutputAsRequested | main.cpp:127-191 | stdin and stdout follow their own options. |
| Streams.ErrorStreamFollowsOutput | main.cpp:128 | stderr follows `--err` exactly when `--out` and `--err` are both given or both omitted. `--err` alone leaves stderr inherited. `--out` alone binds stderr to the empty path. |
| Streams.ValidateStreams | main.cpp:130-158 | No error exactly when every named file opens. Each of the three errors, as an iff, is the first failing check in the order out, err, in. |
| Timing.InvocationOf | main.cpp:185-192 | Definition: the record every launch hands to `bp::child`, namely the executable, the child's arguments and the stream bindings of Redirect. |
| Timing.LoopSeesOnlyItsInvocation | main.cpp:165-202 | Every launch of the loop is made with the configuration's invocation, and iteration i asks for run i only: two launchers that agree on those k calls give the same state after k iterations. |
| Timing.Retained | main.cpp:209-210 | Definition: an iteration is averaged unless it is iteration 1 of five or more. |
| Timing.RetainedBelow | main.cpp:209-210 | Every averaged index is below k and is not the skipped warm-up run. |
| Timing.RetainedIncreasing | main.cpp:165-210 | The averaged indices are in strictly increasing order. |
| Timing.RetainedComplete | main.cpp:165-210 | Every index below k other than the warm-up run is averaged. |
| Timing.RetainedIterationsExactly | main.cpp:165-210 | The averaged indices are exactly the retained indices below k, each once, in order. |
| Timing.RetainedPrefixLength | main.cpp:209-210 | After k runs, k - 1 are averaged when count ≥ 5 and k ≥ 2, and k otherwise. |
| Timing.RetainedLength | main.cpp:209-210 | Of count runs, count - 1 are averaged when count ≥ 5, and all of them otherwise. |
| Timing.ExampleSixRuns | main.cpp:209-210 | Of six runs, runs 0, 2, 3, 4 and 5 are averaged. |
| Timing.Samples | main.cpp:214 | One sample per given iteration, in order, each being that launch's elapsed time. |
| Timing.Add | main.cpp:212-220 | One retained sample raises n by one and clears `first`. |
| Timing.AddAll | main.cpp:160-220 | After k samples n is k + 1, and `first` holds only when there are no samples. |
| Timing.StepAlgebra | main.cpp:220 | One recombination step adds the new sample to duration × n. |
| Timing.ScaledTotal | main.cpp:160-220 | After the samples s, the accumulator's duration times its n is twice the first sample plus all the others. |
| Timing.ClosedFormAt | main.cpp:160-220 | After the samples s, the accumulator's duration is (2·s1 + s2 + … + sk) divided by its own counter n. |
| Timing.ClosedForm | main.cpp:160-220 | After k ≥ 1 samples the duration is (2·s1 + s2 + … + sk) / (k + 1). |
| Timing.OneSample | main.cpp:215-217 | A single sample is its own average. |
| Timing.ExampleThreeSamples | main.cpp:160-220 | The samples 10, 20 and 30 give 17.5. |
| Timing.MeanAt | main.cpp:160-220 | After the samples s, the accumulator's duration equals the mean of s exactly when the first sample equals that mean. |
| Timing.AverageIsMeanIff | main.cpp:160-220 | The duration equals the arithmetic mean of the samples exactly when the first sample already equals that mean. |
| Timing.SumBounds | main.cpp:214-220 | Each sample is at most the sum. The sum is zero exactly when every sample is zero. |
| Timing.SignAt | main.cpp:160-220 | After the samples s, the accumulator's duration is never negative, and it is zero exactly when twice the first sample plus the others is zero. |
| Timing.AverageZeroIff | main.cpp:160-220 | The duration is never negative, and it is zero exactly when every sample is zero. |
| Timing.ShowsProgress | main.cpp:167 | Definition: the progress line is written only when all three paths are set and count > 1. |
| Timing.PreLaunch | main.cpp:167-181 | Definition: the lines an iteration writes before it launches, namely the progress line when shown, then the stdin notice when `--in` is empty. |
| Timing.Iteration | main.cpp:165-221 | One pass of the loop body keeps n ≥ 1. |
| Timing.Loop | main.cpp:160-221 | The loop state after k iterations keeps n ≥ 1. |
| Timing.AbortedStaysAborted | main.cpp:198-202 | Once a launch has failed, later iterations change nothing. |
| Timing.Accumulate | main.cpp:212-220 | The loop body's statements on first, duration and n perform exactly one Add. |
| Timing.RunIterations | main.cpp:160-221 | The loop returns the accumulator, exit_code and console lines of the loop state after count iterations, or the first launch failure with the lines written before it. |
| Timing.LoopAbortsAtFirstFailure | main.cpp:183-202 | The loop runs to the end exactly when every launch exits. An abort reports the first failing launch. |
| Timing.SamplesSnoc | main.cpp:214 | One more iteration adds its elapsed time at the end. |
| Timing.LoopSamples | main.cpp:165-221 | When every launch exits, the loop keeps the elapsed times of exactly the retained iterations, in order, and exit_code is the last run's code (0 before any run). |
| Timing.RetainedStep | main.cpp:212-220 | A retained iteration appends its elapsed time and records its exit code. |
| Timing.SkippedStep | main.cpp:209-210 | The skipped warm-up iteration adds no sample but still records its exit code. |
| Timing.AddAllSnoc | main.cpp:212-220 | One more sample is one more Add. |
| Timing.LoopAverage | main.cpp:160-221 | At every step the accumulator is the running average of the samples kept so far. |
| Timing.AverageStep | main.cpp:212-220 | One retained iteration keeps the accumulator equal to the average of the kept samples. |
| Timing.FiltersAppend | main.cpp:171-206 | Picking out exit-code lines and progress lines distributes over concatenation. |
| Timing.UpTo | main.cpp:171 | The sequence 1 .. k, of length k. |
| Timing.LinesStep | main.cpp:167-207 | A successful iteration writes its pre-launch lines, then the exit code when there is a single run. |
| Timing.PreLaunchFilters | main.cpp:167-181 | The pre-launch lines contain no exit code. They contain the progress mark iter + 1 exactly when progress is shown. |
| Timing.LoopLines | main.cpp:167-207 | The exit-code line appears only for a single run, once, with that run's code. The progress line counts 1, 2, … exactly when all three streams are redirected and count > 1. |
| Reporting.UnitFor | main.cpp:228-235 | Nanoseconds exactly when the duration is ≤ 0. Seconds exactly when it is above one million microseconds. |
| Reporting.MicrosPer | main.cpp:228-235 | Every unit is a positive number of microseconds. |
| Reporting.Shown | main.cpp:228-235 | The printed number times the chosen unit is the duration. For microseconds the number lies in (0, 1000], for milliseconds in (1, 1000], for seconds above 1, and for nanoseconds it is ≤ 0. |
| Reporting.UnitMonotone | main.cpp:228-235 | A longer duration is never printed in a smaller unit. |
| Reporting.UnitBrackets | main.cpp:230-233 | Microseconds exactly for (0, 1000]. Milliseconds exactly for (1000, 1000000]. |
| Reporting.ExampleBoundaries | main.cpp:228-235 | 1000 µs prints as 1000 microseconds, 10^6 µs as 1000 milliseconds, 1.5·10^6 µs as 1.5 seconds, and 0 as 0 nanoseconds. |
| Profiler.Summarize | main.cpp:223-235 | The crash warning appears exactly when exit_code ≠ 0. The printed number read in the printed unit is the duration. |
| Profiler.Measure | main.cpp:160-235 | Definition: the loop followed by the report, as a failed launch's message with the lines written so far, or the summary. |
| Profiler.Profile | main.cpp:36-237 | Definition: the whole of main, meaning parse, then the open checks, then Measure, each failure ending main. |
| Profiler.RunProfiler | main.cpp:36-237 | main's sequence of stages computes exactly Profile. |
| Profiler.ProfileSteps | main.cpp:40-158 | A parse error or a file that does not open ends main before any launch, with nothing written by the loop. Otherwise main is the measurement of the parsed configuration. |
| Profiler.MeasureFinishesIff | main.cpp:165-202 | The measurement finishes exactly when every launch exits. A failure is reported with the first failing launch's message. |
| Profiler.FinishesIff | main.cpp:36-237 | main succeeds exactly when the command line parses, every named file opens and every launch exits. |
| Profiler.MeasuredAverage | main.cpp:160-221 | A finished measurement averages count - 1 samples for five or more runs and count samples otherwise, and reports their running average. |
| Profiler.MeasuredDuration | main.cpp:160-221 | The reported duration is (2·s1 + s2 + … + sk) / (k + 1) over the averaged samples. |
| Profiler.MeasuredCrashWarning | main.cpp:195-226 | The crash warning appears exactly when the last run's exit code is non-zero. |
| Profiler.MeasuredLines | main.cpp:167-207 | One run prints its exit code once, and more runs print none. The progress line counts 1 .. count when it is shown. |
| Profiler.MeasuredShown | main.cpp:212-235 | The printed number read in its unit is the duration. The duration is never negative. It is printed in nanoseconds exactly when every averaged sample is zero. |
| Profiler.ExampleThreeRuns | main.cpp:160-235 | Runs of 10, 20 and 30 µs, the last exiting with 1, are reported as 17.5 microseconds with the crash warning. |

## Left out

- Starting the child and waiting for it (`boost::process`), and the steady
  clock. Both are one oracle, `Timing.Launcher`. For each iteration it gives
  the elapsed whole microseconds and the exit code, or the `what()` text of
  the exception the launch threw.
- Opening the redirect files. This is an oracle, `Streams.FileSystem`, the
  sets of paths that open for writing and for reading. Truncating the output
  files when they are opened is not modelled.
- The text of the messages, the `printf` formatting of the progress
  percentage, and the `\r` and flushing of the console. A progress line is
  kept as its iteration number and total.
- `long double` arithmetic. The accumulator is an exact real, so rounding is
  not modelled.
- Arguments.Stoull: leading whitespace and a sign are not modelled. The
  digit check runs first, so only all-digit strings reach the conversion.
- `argc < 2` is modelled as an empty token list after the program name.
- Exit codes of a child ended by a signal are whatever the launcher
  reports.
