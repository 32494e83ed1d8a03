/** The measurement loop of main: count sequential launches of the child, the
    rule that drops the second run from the average, and the running average
    with its counter n, which starts at 1 so that the first retained sample
    weighs twice. */
module Timing {
  import opened Common
  import opened Arguments
  import opened Streams

  // ---------------------------------------------------------------------------
  // The launcher, seen from outside
  // ---------------------------------------------------------------------------

  /** What is handed to the process launcher on every iteration. */
  datatype Invocation = Invocation(executable: string, arguments: seq<string>, streams: Redirection)

  function InvocationOf(c: Config): Invocation {
    Invocation(c.executable, c.processArguments, Redirect(c))
  }

  /** What one launch reports: the child ran for elapsedMicros whole
      microseconds and exited with exitCode, or starting it threw. */
  datatype Launch = Exited(elapsedMicros: nat, exitCode: int) | LaunchError(what: string)

  /** The launcher and the clock together: the outcome of iteration i. */
  type Launcher = (Invocation, nat) -> Launch

  function Elapsed(l: Launch): nat {
    if l.Exited? then l.elapsedMicros else 0
  }

  // ---------------------------------------------------------------------------
  // Which iterations are averaged
  // ---------------------------------------------------------------------------

  /** The warm-up rule: with five or more runs, iteration 1 is not averaged. */
  predicate Retained(iter: nat, count: nat) {
    !(iter == 1 && count >= 5)
  }

  /** The retained iteration indices among 0 .. k-1, in increasing order. */
  function RetainedIterations(count: nat, k: nat): seq<nat> {
    if k == 0 then []
    else RetainedIterations(count, k - 1) + (if Retained(k - 1, count) then [k - 1] else [])
  }

  /** Every listed index is below k and retained. */
  lemma {:induction false} RetainedBelow(count: nat, k: nat)
    ensures forall j :: 0 <= j < |RetainedIterations(count, k)| ==>
      RetainedIterations(count, k)[j] < k && Retained(RetainedIterations(count, k)[j], count)
  {
    if k > 0 {
      RetainedBelow(count, k - 1);
      var prev := RetainedIterations(count, k - 1);
      if Retained(k - 1, count) {
        assert RetainedIterations(count, k) == prev + [k - 1];
      } else {
        assert RetainedIterations(count, k) == prev;
      }
    }
  }

  /** The indices are listed in strictly increasing order. */
  lemma {:induction false} RetainedIncreasing(count: nat, k: nat)
    ensures forall j, j' :: 0 <= j < j' < |RetainedIterations(count, k)| ==>
      RetainedIterations(count, k)[j] < RetainedIterations(count, k)[j']
  {
    if k > 0 {
      RetainedIncreasing(count, k - 1);
      RetainedBelow(count, k - 1);
      var prev := RetainedIterations(count, k - 1);
      if Retained(k - 1, count) {
        var r := prev + [k - 1];
        assert RetainedIterations(count, k) == r;
        assert forall j :: 0 <= j < |prev| ==> r[j] == prev[j];
      } else {
        assert RetainedIterations(count, k) == prev;
      }
    }
  }

  /** Every retained index below k is listed. */
  lemma {:induction false} RetainedComplete(count: nat, k: nat)
    ensures forall i :: 0 <= i < k && Retained(i, count) ==> i in RetainedIterations(count, k)
  {
    if k > 0 {
      RetainedComplete(count, k - 1);
      var prev := RetainedIterations(count, k - 1);
      if Retained(k - 1, count) {
        assert RetainedIterations(count, k) == prev + [k - 1];
      } else {
        assert RetainedIterations(count, k) == prev;
      }
    }
  }

  /** The list holds exactly the retained indices below k, each once, in order. */
  lemma RetainedIterationsExactly(count: nat, k: nat)
    ensures var r := RetainedIterations(count, k);
      && (forall j :: 0 <= j < |r| ==> r[j] < k && Retained(r[j], count))
      && (forall j, j' :: 0 <= j < j' < |r| ==> r[j] < r[j'])
      && (forall i :: 0 <= i < k && Retained(i, count) ==> i in r)
  {
    RetainedBelow(count, k);
    RetainedIncreasing(count, k);
    RetainedComplete(count, k);
  }

  lemma {:induction false} RetainedPrefixLength(count: nat, k: nat)
    ensures |RetainedIterations(count, k)| == if count >= 5 && k >= 2 then k - 1 else k
  {
    if k > 0 {
      RetainedPrefixLength(count, k - 1);
    }
  }

  /** Every run is averaged except the second one of five or more. */
  lemma RetainedLength(count: nat)
    ensures |RetainedIterations(count, count)| == if count >= 5 then count - 1 else count
  {
    RetainedPrefixLength(count, count);
  }

  /** With six runs, iterations 0, 2, 3, 4 and 5 are averaged. */
  lemma ExampleSixRuns()
    ensures RetainedIterations(6, 6) == [0, 2, 3, 4, 5]
  {
    assert RetainedIterations(6, 1) == [0];
    assert RetainedIterations(6, 2) == [0];
    assert RetainedIterations(6, 3) == [0, 2];
    assert RetainedIterations(6, 4) == [0, 2, 3];
    assert RetainedIterations(6, 5) == [0, 2, 3, 4];
  }

  /** The elapsed times of the given iterations, in the same order. */
  function Samples(launcher: Launcher, inv: Invocation, iters: seq<nat>): (s: seq<nat>)
    ensures |s| == |iters|
    ensures forall j :: 0 <= j < |s| ==> s[j] == Elapsed(launcher(inv, iters[j]))
  {
    if iters == [] then []
    else Samples(launcher, inv, iters[..|iters| - 1]) + [Elapsed(launcher(inv, iters[|iters| - 1]))]
  }

  // ---------------------------------------------------------------------------
  // The running average
  // ---------------------------------------------------------------------------

  /** The accumulator state: the `first` flag, `duration` and the counter `n`. */
  datatype Average = Average(first: bool, duration: real, n: real)

  const Initial: Average := Average(true, 0.0, 1.0)

  /** One retained sample: n is incremented first; the first sample is added
      to the zero duration, later ones recombine with weight n - 1. */
  function Add(a: Average, interval: real): (r: Average)
    requires a.n >= 1.0
    ensures r.n == a.n + 1.0 && !r.first
  {
    var n := a.n + 1.0;
    if a.first then Average(false, a.duration + interval, n)
    else Average(false, (a.duration * (n - 1.0) + interval) / n, n)
  }

  /** A whole number of microseconds as the floating accumulator sees it. */
  function Real(k: nat): real {
    k as real
  }

  /** The accumulator after the given retained samples, in order. */
  function AddAll(s: seq<nat>): (a: Average)
    ensures a.n == Real(|s|) + 1.0
    ensures a.first <==> s == []
  {
    if s == [] then Initial else Add(AddAll(s[..|s| - 1]), Real(s[|s| - 1]))
  }

  function Sum(s: seq<nat>): nat {
    if s == [] then 0 else Sum(s[..|s| - 1]) + s[|s| - 1]
  }

  lemma MulCancel(a: real, b: real, k: real)
    requires k > 0.0
    ensures a * k == b * k <==> a == b
  {
    if a * k == b * k {
      assert (a - b) * k == 0.0;
    }
  }

  lemma DivMul(x: real, k: real)
    requires k > 0.0
    ensures (x / k) * k == x
  {
  }

  /** One recombination step adds the new sample to duration * n. */
  lemma StepAlgebra(a: Average, x: real, d: real, n: real)
    requires a.n >= 1.0 && !a.first && d == Add(a, x).duration && n == Add(a, x).n
    ensures d * n == a.duration * a.n + x
  {
    DivMul(a.duration * (a.n + 1.0 - 1.0) + x, a.n + 1.0);
  }

  /** duration * n equals twice the first retained sample plus the others,
      stated on names for the accumulator's two reals. */
  lemma {:induction false} ScaledTotal(s: seq<nat>, d: real, n: real)
    requires s != [] && d == AddAll(s).duration && n == AddAll(s).n
    ensures d * n == Real(s[0] + Sum(s))
  {
    var t := s[..|s| - 1];
    var x := s[|s| - 1];
    if t == [] {
      assert s == [x];
      ScaledTotalOne(x, d, n);
    } else {
      var a := AddAll(t);
      ScaledTotal(t, a.duration, a.n);
      assert AddAll(s) == Add(a, Real(x));
      StepAlgebra(a, Real(x), d, n);
      assert Sum(s) == Sum(t) + x && t[0] == s[0];
    }
  }

  lemma ScaledTotalOne(x: nat, d: real, n: real)
    requires d == AddAll([x]).duration && n == AddAll([x]).n
    ensures d * n == Real(x + x)
  {
    assert [x][..0] == [];
  }

  lemma MulToDiv(d: real, num: real, den: real)
    requires den > 0.0 && d * den == num
    ensures d == num / den
  {
    DivMul(num, den);
    MulCancel(d, num / den, den);
  }

  lemma ClosedFormAt(s: seq<nat>, d: real, n: real)
    requires s != [] && d == AddAll(s).duration && n == AddAll(s).n
    ensures d == Real(s[0] + Sum(s)) / n
  {
    ScaledTotal(s, d, n);
    MulToDiv(d, Real(s[0] + Sum(s)), n);
  }

  /** After k >= 1 retained samples the duration is (2*s1 + s2 + ... + sk) / (k + 1). */
  lemma ClosedForm(s: seq<nat>)
    requires s != []
    ensures AddAll(s).duration == Real(s[0] + Sum(s)) / Real(|s| + 1)
  {
    var a := AddAll(s);
    assert a.n == Real(|s| + 1);
    ClosedFormAt(s, a.duration, a.n);
  }

  /** A single sample is its own average. */
  lemma OneSample(x: nat)
    ensures AddAll([x]).duration == Real(x)
  {
    assert [x][..0] == [];
  }

  /** Samples 10, 20, 30 give 17.5, not their mean 20. */
  lemma ExampleThreeSamples()
    ensures AddAll([10, 20, 30]).duration == 17.5
  {
    assert [10, 20, 30][..2] == [10, 20];
    assert [10, 20][..1] == [10];
    assert [10][..0] == [];
    assert AddAll([10]) == Average(false, 10.0, 2.0);
    assert AddAll([10, 20]) == Average(false, 40.0 / 3.0, 3.0);
  }

  /** The arithmetic mean of a non-empty sequence of samples. */
  function Mean(s: seq<nat>): real
    requires s != []
  {
    Real(Sum(s)) / Real(|s|)
  }

  lemma MeanAlgebra(d: real, n: real, m: real, first: real, total: real, k: real)
    requires k >= 1.0 && n == k + 1.0 && d * n == first + total && m == total / k
    ensures d == m <==> first == m
  {
    DivMul(total, k);
    MulCancel(d, m, n);
    assert m * n == m * k + m;
  }

  lemma MeanAt(s: seq<nat>, d: real, n: real, m: real)
    requires s != [] && d == AddAll(s).duration && n == AddAll(s).n && m == Mean(s)
    ensures d == m <==> Real(s[0]) == m
  {
    ScaledTotal(s, d, n);
    MeanAlgebra(d, n, m, Real(s[0]), Real(Sum(s)), Real(|s|));
  }

  /** The duration is the arithmetic mean of the retained samples exactly when
      the first retained sample already equals that mean. */
  lemma AverageIsMeanIff(s: seq<nat>)
    requires s != []
    ensures AddAll(s).duration == Mean(s) <==> Real(s[0]) == Mean(s)
  {
    var a := AddAll(s);
    MeanAt(s, a.duration, a.n, Mean(s));
  }

  lemma {:induction false} SumBounds(s: seq<nat>)
    ensures forall i :: 0 <= i < |s| ==> s[i] <= Sum(s)
    ensures Sum(s) == 0 <==> forall i :: 0 <= i < |s| ==> s[i] == 0
  {
    if s != [] {
      var t := s[..|s| - 1];
      SumBounds(t);
      assert forall i :: 0 <= i < |t| ==> s[i] == t[i];
    }
  }

  lemma SignAlgebra(d: real, num: real, den: real)
    requires den > 0.0 && num >= 0.0 && d * den == num
    ensures d >= 0.0 && (d == 0.0 <==> num == 0.0)
  {
    MulCancel(d, 0.0, den);
  }

  lemma SignAt(s: seq<nat>, d: real, n: real)
    requires s != [] && d == AddAll(s).duration && n == AddAll(s).n
    ensures d >= 0.0 && (d == 0.0 <==> s[0] + Sum(s) == 0)
  {
    ScaledTotal(s, d, n);
    SignAlgebra(d, Real(s[0] + Sum(s)), n);
  }

  /** The duration is never negative, and it is zero only when every retained
      sample is zero. */
  lemma AverageZeroIff(s: seq<nat>)
    requires s != []
    ensures AddAll(s).duration >= 0.0
    ensures AddAll(s).duration == 0.0 <==> forall i :: 0 <= i < |s| ==> s[i] == 0
  {
    var a := AddAll(s);
    SignAt(s, a.duration, a.n);
    SumBounds(s);
  }

  // ---------------------------------------------------------------------------
  // The iteration loop
  // ---------------------------------------------------------------------------

  /** Console lines the loop writes: the in-place progress line, the notice
      that the child may read the terminal, and the single-run exit code. */
  datatype Line = Progress(iteration: nat, total: nat) | AwaitingInput | ExitCodeLine(code: int)

  /** The progress line is shown only when all three streams are redirected
      and more than one run is made. */
  predicate ShowsProgress(c: Config) {
    c.inPath != "" && c.outPath != "" && c.errPath != "" && c.count > 1
  }

  /** What an iteration writes before it launches the child. */
  function PreLaunch(c: Config, iter: nat): seq<Line> {
    (if ShowsProgress(c) then [Progress(iter + 1, c.count)] else [])
      + (if c.inPath == "" then [AwaitingInput] else [])
  }

  /** The loop's state between iterations: the samples retained so far, the
      accumulator, the last exit code and the console lines; or the abort
      that ended it. */
  datatype LoopState =
    | Running(samples: seq<nat>, average: Average, exitCode: int, lines: seq<Line>)
    | Aborted(what: string, lines: seq<Line>)

  /** One pass of the loop body on a running state. */
  function Iteration(c: Config, iter: nat, samples: seq<nat>, a: Average, exitCode: int, lines: seq<Line>,
                     outcome: Launch): (r: LoopState)
    requires a.n >= 1.0
    ensures r.Running? ==> r.average.n >= 1.0
  {
    var before := lines + PreLaunch(c, iter);
    match outcome
    case LaunchError(what) => Aborted(what, before)
    case Exited(elapsed, code) =>
      var after := before + (if c.count == 1 then [ExitCodeLine(code)] else []);
      if Retained(iter, c.count) then Running(samples + [elapsed], Add(a, Real(elapsed)), code, after)
      else Running(samples, a, code, after)
  }

  /** The state after the first k iterations. */
  function Loop(c: Config, launcher: Launcher, k: nat): (r: LoopState)
    ensures r.Running? ==> r.average.n >= 1.0
  {
    if k == 0 then Running([], Initial, 0, [])
    else match Loop(c, launcher, k - 1)
      case Aborted(what, lines) => Aborted(what, lines)
      case Running(samples, a, code, lines) =>
        Iteration(c, k - 1, samples, a, code, lines, launcher(InvocationOf(c), k - 1))
  }

  lemma {:induction false} AbortedStaysAborted(c: Config, launcher: Launcher, k: nat, k': nat)
    requires k <= k' && Loop(c, launcher, k).Aborted?
    ensures Loop(c, launcher, k') == Loop(c, launcher, k)
    decreases k' - k
  {
    if k < k' {
      AbortedStaysAborted(c, launcher, k, k' - 1);
    }
  }

  /** The statements of the loop body that fold one retained interval into
      first, duration and n. */
  method Accumulate(first: bool, duration: real, n: real, interval: real)
    returns (first': bool, duration': real, n': real)
    requires n >= 1.0
    ensures Average(first', duration', n') == Add(Average(first, duration, n), interval)
  {
    first', duration', n' := first, duration, n + 1.0;
    if first' {
      duration' := duration' + interval;
      first' := false;
    } else {
      duration' := (duration' * (n' - 1.0) + interval) / n';
    }
  }

  /** What main holds after its loop: the accumulator, exit_code and the
      console, or the failure that made it return early. */
  datatype LoopOutcome =
    | Completed(average: Average, exitCode: int, lines: seq<Line>)
    | Stopped(what: string, lines: seq<Line>)

  /** The part of a loop state that main's variables hold. */
  function Outcome(st: LoopState): LoopOutcome {
    match st
    case Running(_, a, code, lines) => Completed(a, code, lines)
    case Aborted(what, lines) => Stopped(what, lines)
  }

  /** The loop of main, with its mutable locals first, duration, n and
      exit_code; the console is the sequence of lines written so far, and the
      retained samples are ghost. */
  method RunIterations(c: Config, launcher: Launcher) returns (r: LoopOutcome)
    ensures r == Outcome(Loop(c, launcher, c.count))
  {
    var first := true;
    var duration: real := 0.0;
    var n: real := 1.0;
    var exitCode := 0;
    var lines: seq<Line> := [];
    ghost var samples: seq<nat> := [];
    var inv := InvocationOf(c);
    for iter := 0 to c.count
      invariant Loop(c, launcher, iter) == Running(samples, Average(first, duration, n), exitCode, lines)
    {
      ghost var before := lines;
      if c.inPath != "" && c.outPath != "" && c.errPath != "" && c.count > 1 {
        lines := lines + [Progress(iter + 1, c.count)];
      }
      if c.inPath == "" {
        lines := lines + [AwaitingInput];
      }
      assert lines == before + PreLaunch(c, iter);
      match launcher(inv, iter) {
        case LaunchError(what) =>
          AbortedStaysAborted(c, launcher, iter + 1, c.count);
          return Stopped(what, lines);
        case Exited(elapsed, code) =>
          exitCode := code;
          if c.count == 1 {
            lines := lines + [ExitCodeLine(exitCode)];
          }
          if iter == 1 && c.count >= 5 {
            continue;
          }
          samples := samples + [elapsed];
          first, duration, n := Accumulate(first, duration, n, Real(elapsed));
      }
    }
    return Completed(Average(first, duration, n), exitCode, lines);
  }

  // ---------------------------------------------------------------------------
  // Properties of the loop
  // ---------------------------------------------------------------------------

  predicate AllExited(launcher: Launcher, inv: Invocation, k: nat) {
    forall i :: 0 <= i < k ==> launcher(inv, i).Exited?
  }

  /** The loop aborts exactly when some launch among the first k fails, and
      it reports the first such failure. */
  lemma {:induction false} LoopAbortsAtFirstFailure(c: Config, launcher: Launcher, k: nat)
    ensures Loop(c, launcher, k).Running? <==> AllExited(launcher, InvocationOf(c), k)
    ensures Loop(c, launcher, k).Aborted? ==>
      exists i :: 0 <= i < k && launcher(InvocationOf(c), i) == LaunchError(Loop(c, launcher, k).what)
        && AllExited(launcher, InvocationOf(c), i)
  {
    if k > 0 {
      LoopAbortsAtFirstFailure(c, launcher, k - 1);
      var inv := InvocationOf(c);
      if Loop(c, launcher, k - 1).Running? && launcher(inv, k - 1).LaunchError? {
        assert launcher(inv, k - 1) == LaunchError(Loop(c, launcher, k).what);
      }
    }
  }

  /** Every launch of the loop is made with the same invocation, that of the
      configuration, and iteration i asks the launcher for run i only: two
      launchers that agree there give the same loop. */
  lemma {:induction false} LoopSeesOnlyItsInvocation(c: Config, launcher: Launcher, other: Launcher, k: nat)
    requires forall i :: 0 <= i < k ==> launcher(InvocationOf(c), i) == other(InvocationOf(c), i)
    ensures Loop(c, launcher, k) == Loop(c, other, k)
  {
    if k > 0 {
      LoopSeesOnlyItsInvocation(c, launcher, other, k - 1);
    }
  }

  lemma SamplesSnoc(launcher: Launcher, inv: Invocation, iters: seq<nat>, i: nat)
    ensures Samples(launcher, inv, iters + [i]) == Samples(launcher, inv, iters) + [Elapsed(launcher(inv, i))]
  {
    assert (iters + [i])[..|iters|] == iters;
  }

  /** When every launch succeeds, the loop retains the elapsed times of exactly
      the retained iterations, in order, and exit_code holds the last code. */
  lemma {:induction false} LoopSamples(c: Config, launcher: Launcher, k: nat)
    requires AllExited(launcher, InvocationOf(c), k)
    ensures Loop(c, launcher, k).Running?
    ensures Loop(c, launcher, k).samples == Samples(launcher, InvocationOf(c), RetainedIterations(c.count, k))
    ensures Loop(c, launcher, k).exitCode == if k == 0 then 0 else launcher(InvocationOf(c), k - 1).exitCode
  {
    if k > 0 {
      LoopSamples(c, launcher, k - 1);
      if Retained(k - 1, c.count) {
        RetainedStep(c, launcher, k);
      } else {
        SkippedStep(c, launcher, k);
      }
    }
  }

  /** A retained iteration appends its elapsed time. */
  lemma RetainedStep(c: Config, launcher: Launcher, k: nat)
    requires k > 0 && Retained(k - 1, c.count) && launcher(InvocationOf(c), k - 1).Exited?
    requires Loop(c, launcher, k - 1).Running?
    requires Loop(c, launcher, k - 1).samples
          == Samples(launcher, InvocationOf(c), RetainedIterations(c.count, k - 1))
    ensures Loop(c, launcher, k).Running?
    ensures Loop(c, launcher, k).samples == Samples(launcher, InvocationOf(c), RetainedIterations(c.count, k))
    ensures Loop(c, launcher, k).exitCode == launcher(InvocationOf(c), k - 1).exitCode
  {
    var iters := RetainedIterations(c.count, k - 1);
    assert RetainedIterations(c.count, k) == iters + [k - 1];
    SamplesSnoc(launcher, InvocationOf(c), iters, k - 1);
  }

  /** The skipped warm-up iteration retains nothing. */
  lemma SkippedStep(c: Config, launcher: Launcher, k: nat)
    requires k > 0 && !Retained(k - 1, c.count) && launcher(InvocationOf(c), k - 1).Exited?
    requires Loop(c, launcher, k - 1).Running?
    requires Loop(c, launcher, k - 1).samples
          == Samples(launcher, InvocationOf(c), RetainedIterations(c.count, k - 1))
    ensures Loop(c, launcher, k).Running?
    ensures Loop(c, launcher, k).samples == Samples(launcher, InvocationOf(c), RetainedIterations(c.count, k))
    ensures Loop(c, launcher, k).exitCode == launcher(InvocationOf(c), k - 1).exitCode
  {
    var iters := RetainedIterations(c.count, k - 1);
    assert RetainedIterations(c.count, k) == iters + [];
    assert iters + [] == iters;
  }

  lemma AddAllSnoc(s: seq<nat>, x: nat)
    ensures AddAll(s + [x]) == Add(AddAll(s), Real(x))
  {
    assert (s + [x])[..|s|] == s;
  }

  /** The accumulator is at every step the running average of the samples the
      loop has retained. */
  lemma {:induction false} LoopAverage(c: Config, launcher: Launcher, k: nat)
    ensures Loop(c, launcher, k).Running? ==> Loop(c, launcher, k).average == AddAll(Loop(c, launcher, k).samples)
  {
    if k > 0 {
      LoopAverage(c, launcher, k - 1);
      var prev := Loop(c, launcher, k - 1);
      if prev.Running? && launcher(InvocationOf(c), k - 1).Exited? && Retained(k - 1, c.count) {
        AverageStep(c, launcher, k);
      }
    }
  }

  lemma AverageStep(c: Config, launcher: Launcher, k: nat)
    requires k > 0 && Retained(k - 1, c.count) && launcher(InvocationOf(c), k - 1).Exited?
    requires Loop(c, launcher, k - 1).Running?
    requires Loop(c, launcher, k - 1).average == AddAll(Loop(c, launcher, k - 1).samples)
    ensures Loop(c, launcher, k).average == AddAll(Loop(c, launcher, k).samples)
  {
    AddAllSnoc(Loop(c, launcher, k - 1).samples, launcher(InvocationOf(c), k - 1).elapsedMicros);
  }

  /** The exit codes the loop printed, in order. */
  function ExitCodes(lines: seq<Line>): seq<int> {
    if lines == [] then []
    else (if lines[0].ExitCodeLine? then [lines[0].code] else []) + ExitCodes(lines[1..])
  }

  /** The iteration numbers the progress lines showed, in order. */
  function ProgressMarks(lines: seq<Line>): seq<nat> {
    if lines == [] then []
    else (if lines[0].Progress? then [lines[0].iteration] else []) + ProgressMarks(lines[1..])
  }

  lemma {:induction false} FiltersAppend(a: seq<Line>, b: seq<Line>)
    ensures ExitCodes(a + b) == ExitCodes(a) + ExitCodes(b)
    ensures ProgressMarks(a + b) == ProgressMarks(a) + ProgressMarks(b)
  {
    if a != [] {
      assert (a + b)[0] == a[0] && (a + b)[1..] == a[1..] + b;
      FiltersAppend(a[1..], b);
    } else {
      assert a + b == b;
    }
  }

  /** 1, 2, ..., k. */
  function UpTo(k: nat): (r: seq<nat>)
    ensures |r| == k && forall j :: 0 <= j < k ==> r[j] == j + 1
  {
    if k == 0 then [] else UpTo(k - 1) + [k]
  }

  /** A successful iteration writes its pre-launch lines, then the exit code
      when there is a single run. */
  lemma LinesStep(c: Config, launcher: Launcher, k: nat)
    requires k > 0 && Loop(c, launcher, k - 1).Running? && launcher(InvocationOf(c), k - 1).Exited?
    ensures Loop(c, launcher, k).Running?
    ensures Loop(c, launcher, k).lines == Loop(c, launcher, k - 1).lines + PreLaunch(c, k - 1)
      + (if c.count == 1 then [ExitCodeLine(launcher(InvocationOf(c), k - 1).exitCode)] else [])
  {
  }

  lemma PreLaunchFilters(c: Config, iter: nat)
    ensures ExitCodes(PreLaunch(c, iter)) == []
    ensures ProgressMarks(PreLaunch(c, iter)) == if ShowsProgress(c) then [iter + 1] else []
  {
    var p := if ShowsProgress(c) then [Progress(iter + 1, c.count)] else [];
    var w := if c.inPath == "" then [AwaitingInput] else [];
    FiltersAppend(p, w);
  }

  /** The exit code is printed for every run when there is one run, and never
      otherwise; the progress line counts the runs 1, 2, ... when shown. */
  lemma {:induction false} LoopLines(c: Config, launcher: Launcher, k: nat)
    requires AllExited(launcher, InvocationOf(c), k)
    ensures Loop(c, launcher, k).Running?
    ensures c.count != 1 ==> ExitCodes(Loop(c, launcher, k).lines) == []
    ensures c.count == 1 && k == 1 ==>
      ExitCodes(Loop(c, launcher, k).lines) == [launcher(InvocationOf(c), 0).exitCode]
    ensures ProgressMarks(Loop(c, launcher, k).lines) == if ShowsProgress(c) then UpTo(k) else []
  {
    if k > 0 {
      LoopLines(c, launcher, k - 1);
      LinesStep(c, launcher, k);
      var prev := Loop(c, launcher, k - 1).lines;
      var pre := PreLaunch(c, k - 1);
      var tail := if c.count == 1 then [ExitCodeLine(launcher(InvocationOf(c), k - 1).exitCode)] else [];
      FiltersAppend(prev + pre, tail);
      FiltersAppend(prev, pre);
      PreLaunchFilters(c, k - 1);
      if c.count == 1 && k == 1 {
        assert prev == [];
      }
    }
  }
}
