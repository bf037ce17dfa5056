/**
 * The run controller of the end-to-end test runner (`runTest`,
 * `cycleTests` and the exit-code rule in tests/selenium/src/main.mjs).
 *
 * Tests run one at a time in list order. A test fails when setting up its
 * browser throws, when its function throws an error, or, if neither did,
 * when its screenshot check throws. Two counters record passed and failed
 * tests; with `--stop` the run ends after the first failure. The process
 * exits with 1 exactly when some test failed.
 *
 * What the browser, the test module and the image comparison do for the
 * i-th test run is an input, `env(i)`.
 */
module RunnerControl {
  import opened Wrappers
  import opened JsText
  import opened RunnerArgs
  import opened RunnerScreenshot

  /**
   * A value a test's function may throw. JavaScript can throw any value; the
   * runner compares the caught value with `null` and tests its truthiness, so
   * an `Error` object, `null`, and the other falsy values (`undefined`, `0`,
   * `''`, `false`) behave differently.
   */
  datatype Thrown = ErrorValue(error: Error) | NullValue | FalsyValue

  /** What the world does when one test is run. */
  datatype TestEnv = TestEnv(
    setup: Option<Error>,        // the driver cannot be built, its timeouts set or the test module imported
    body: Option<Thrown>,        // what the test's function throws
    capture: Option<Error>,      // the screenshot cannot be taken or written
    compare: Result<nat, Error>) // the image comparison's mismatch percentage, or its error

  /** How a test ended, with the message printed for a failure. */
  datatype Verdict = Passed | Failed(message: string)

  /** The line printed for a test: `[position/total] file` and its verdict. */
  datatype Line = Line(position: nat, total: nat, file: string, verdict: Verdict)

  /**
   * The value the test ends with: the setup error if there is one;
   * otherwise what the test's function threw, replaced by the screenshot
   * error only when that value is `null`. The screenshot is validated only
   * when the function threw nothing (or `null`).
   */
  function FinalError(cfg: Config, tag: string, trusted: set<string>, file: string, env: TestEnv): (t: Thrown)
    ensures env.setup.Some? ==> t == ErrorValue(env.setup.value)
    ensures env.setup.None? && env.body.Some? && env.body.value != NullValue ==> t == env.body.value
    ensures env.setup.None? && (env.body.None? || env.body == Some(NullValue)) ==>
      t == match ScreenshotCheck(true, TrustedDir + ScreenshotName(tag, cfg.mobile, cfg.headless, file) in trusted,
                                 env.capture, env.compare)
           case Some(e) => ErrorValue(e)
           case None => NullValue
  {
    if env.setup.Some? then ErrorValue(env.setup.value)
    else
      var error := env.body.GetOr(NullValue);
      var name := ScreenshotName(tag, cfg.mobile, cfg.headless, file);
      var shot := ScreenshotCheck(error == NullValue, TrustedDir + name in trusted, env.capture, env.compare);
      if error == NullValue && shot.Some? then ErrorValue(shot.value) else error
  }

  /**
   * The message printed for a failure: the whole message when verbose,
   * otherwise the message with every line feed and the rest of its line
   * removed, which is never longer, holds no line feed, and leaves a
   * single-line message as it is.
   */
  function FailureMessage(verbose: bool, e: Error): (m: string)
    ensures verbose ==> m == e.message
    ensures !verbose ==> '\n' !in m && |m| <= |e.message|
    ensures '\n' !in e.message ==> m == e.message
  {
    if verbose then e.message
    else
      DropContinuationsSingleLine(e.message);
      DropContinuations(e.message)
  }

  /**
   * A test passes unless it ends with a thrown error object; falsy values
   * count as success. A failure prints that error's message, on one line
   * unless the run is verbose.
   */
  function TestVerdict(cfg: Config, tag: string, trusted: set<string>, file: string, env: TestEnv): (v: Verdict)
    ensures v.Failed? <==> FinalError(cfg, tag, trusted, file, env).ErrorValue?
    ensures v.Failed? ==> v.message == FailureMessage(cfg.verbose, FinalError(cfg, tag, trusted, file, env).error)
    ensures v.Failed? && !cfg.verbose ==> '\n' !in v.message
  {
    match FinalError(cfg, tag, trusted, file, env)
    case ErrorValue(e) => Failed(FailureMessage(cfg.verbose, e))
    case _ => Passed
  }

  /** The verdict of each test in the list, were it run. */
  function Verdicts(cfg: Config, tag: string, trusted: set<string>, env: nat -> TestEnv): (vs: seq<Verdict>)
    ensures |vs| == |cfg.tests|
  {
    seq(|cfg.tests|, i requires 0 <= i < |cfg.tests| => TestVerdict(cfg, tag, trusted, cfg.tests[i], env(i)))
  }

  /** The line printed for the test at index `i`, given each test's verdict. */
  function LineFor(cfg: Config, verdicts: seq<Verdict>, i: nat): Line
    requires i < |cfg.tests| == |verdicts|
  {
    Line(i + 1, |cfg.tests|, cfg.tests[i], verdicts[i])
  }

  /** Some test of `lines` failed. */
  predicate HasFailure(lines: seq<Line>) {
    exists j :: 0 <= j < |lines| && lines[j].verdict.Failed?
  }

  /** The number of failed tests among `lines`. */
  function CountFailed(lines: seq<Line>): nat
  {
    if lines == [] then 0
    else CountFailed(lines[..|lines| - 1]) + (if lines[|lines| - 1].verdict.Failed? then 1 else 0)
  }

  /**
   * The lines printed once the loop has dealt with the first `k` tests,
   * given each test's verdict: a test is run unless `--stop` is set and an
   * earlier test failed.
   */
  function RunLines(cfg: Config, verdicts: seq<Verdict>, k: nat): seq<Line>
    requires k <= |cfg.tests| == |verdicts|
  {
    if k == 0 then []
    else
      var before := RunLines(cfg, verdicts, k - 1);
      if cfg.stop && HasFailure(before) then before
      else before + [LineFor(cfg, verdicts, k - 1)]
  }

  /** The lines printed by a whole run. */
  function Run(cfg: Config, tag: string, trusted: set<string>, env: nat -> TestEnv): seq<Line>
  {
    RunLines(cfg, Verdicts(cfg, tag, trusted, env), |cfg.tests|)
  }

  /** The exit code: 1 when a test failed, otherwise 0. */
  function ExitCode(failed: nat): (c: int)
    ensures c == 0 || c == 1
    ensures c == 1 <==> failed > 0
  {
    if failed > 0 then 1 else 0
  }

  // ---------------------------------------------------------------------
  // The controller
  // ---------------------------------------------------------------------

  /** The runner's state: the parsed configuration and the two counters. */
  class Runner {
    const cfg: Config
    const tag: string
    const trusted: set<string>
    var failed: nat
    var successful: nat
    /** The lines printed so far, one per test run. */
    var report: seq<Line>

    /** The counters agree with what was printed. */
    ghost predicate Valid()
      reads this
    {
      failed == CountFailed(report) && successful + failed == |report|
    }

    /** The runner for a configuration, with both counters at zero. */
    constructor (cfg: Config, lifecycleEvent: Option<string>, trusted: set<string>)
      ensures Valid()
      ensures this.cfg == cfg && this.tag == Tag(lifecycleEvent) && this.trusted == trusted
      ensures failed == 0 && successful == 0 && report == []
    {
      this.cfg := cfg;
      this.tag := Tag(lifecycleEvent);
      this.trusted := trusted;
      failed, successful, report := 0, 0, [];
    }

    /**
     * `runTest`: runs the test at index `i`, counts it as passed or failed
     * and prints its line.
     */
    method RunTest(i: nat, env: TestEnv)
      requires Valid() && i < |cfg.tests|
      modifies this
      ensures Valid()
      ensures report == old(report) + [Line(i + 1, |cfg.tests|, cfg.tests[i], TestVerdict(cfg, tag, trusted, cfg.tests[i], env))]
      ensures failed == old(failed) + (if report[|report| - 1].verdict.Failed? then 1 else 0)
      ensures successful == old(successful) + (if report[|report| - 1].verdict.Failed? then 0 else 1)
    {
      var file := cfg.tests[i];
      var thrown: Thrown;
      if env.setup.Some? {
        thrown := ErrorValue(env.setup.value);
      } else {
        var error := NullValue;
        if env.body.Some? {
          error := env.body.value;
        }
        var name := ScreenshotName(tag, cfg.mobile, cfg.headless, file);
        var shot := ScreenshotCheck(error == NullValue, TrustedDir + name in trusted, env.capture, env.compare);
        if shot.Some? && error == NullValue {
          error := ErrorValue(shot.value);
        }
        thrown := error;
      }
      var line: Line;
      if thrown.ErrorValue? {
        failed := failed + 1;
        line := Line(i + 1, |cfg.tests|, file, Failed(FailureMessage(cfg.verbose, thrown.error)));
      } else {
        successful := successful + 1;
        line := Line(i + 1, |cfg.tests|, file, Passed);
      }
      report := report + [line];
      assert report[..|report| - 1] == old(report);
    }

    /**
     * `cycleTests`: runs the tests in order, stopping after the first
     * failure when `--stop` is set.
     */
    method CycleTests(env: nat -> TestEnv)
      requires Valid() && report == []
      modifies this
      ensures Valid()
      ensures report == Run(cfg, tag, trusted, env)
      ensures successful + failed == |report|
    {
      ghost var verdicts := Verdicts(cfg, tag, trusted, env);
      var i := 0;
      while i < |cfg.tests|
        invariant 0 <= i <= |cfg.tests|
        invariant Valid()
        invariant report == RunLines(cfg, verdicts, i)
        invariant !(cfg.stop && failed > 0)
      {
        ghost var before := report;
        CountFailedPositive(before);
        RunLinesStep(cfg, verdicts, i);
        RunTest(i, env(i));
        assert verdicts[i] == TestVerdict(cfg, tag, trusted, cfg.tests[i], env(i));
        assert report == before + [LineFor(cfg, verdicts, i)];
        if failed > 0 && cfg.stop {
          CountFailedPositive(report);
          StoppedRunStaysStopped(cfg, verdicts, i + 1, |cfg.tests|);
          break;
        }
        i := i + 1;
      }
    }

    /** The process exit code once the run is over. */
    function ExitStatus(): (c: int)
      reads this
      requires Valid()
      ensures c == 0 || c == 1
      ensures c == 1 <==> HasFailure(report)
    {
      CountFailedPositive(report);
      ExitCode(failed)
    }
  }

  /**
   * The whole script: parse the arguments, build the runner, cycle through
   * the tests and set the exit code. When parsing throws, the exception
   * escapes the module and Node.js ends the process with exit code 1 before
   * any test runs.
   */
  method Execute(argv: seq<string>, fs: set<string>, listing: Result<seq<string>, Error>,
                 lifecycleEvent: Option<string>, trusted: set<string>, env: nat -> TestEnv)
    returns (exitCode: int, report: seq<Line>, cfg: Config)
    ensures exitCode == 0 || exitCode == 1
    ensures !ParseFails(argv, fs, listing) ==> report == Run(cfg, Tag(lifecycleEvent), trusted, env)
    ensures !ParseFails(argv, fs, listing) ==>
      cfg.url == LastUrl(argv) &&
      (cfg.mobile <==> "--mobile" in argv) && (cfg.headless <==> "--headless" in argv) &&
      (cfg.verbose <==> "--verbose" in argv) && (cfg.stop <==> "--stop" in argv)
    ensures !ParseFails(argv, fs, listing) && TestNames(argv) != [] ==>
      |cfg.tests| == |TestNames(argv)| &&
      forall k :: 0 <= k < |cfg.tests| ==> Resolve(fs, TestNames(argv)[k]) == Some(cfg.tests[k])
    ensures !ParseFails(argv, fs, listing) && TestNames(argv) == [] ==> cfg.tests == Discover(listing.value)
    ensures ParseFails(argv, fs, listing) ==> exitCode == 1 && report == []
    ensures !ParseFails(argv, fs, listing) ==> (exitCode == 1 <==> HasFailure(report))
    ensures forall j :: 0 <= j < |report| ==> report[j].position == j + 1
    ensures "--stop" in argv ==> forall j :: 0 <= j < |report| - 1 ==> report[j].verdict.Passed?
  {
    var parsed := ParseArgs(argv, fs, listing);
    if parsed.Failure? {
      return 1, [], Config(None, [], false, false, false, false);
    }
    cfg := parsed.value;
    var runner := new Runner(cfg, lifecycleEvent, trusted);
    runner.CycleTests(env);
    exitCode := runner.ExitStatus();
    report := runner.report;
    ghost var verdicts := Verdicts(cfg, runner.tag, trusted, env);
    RunInOrder(cfg, verdicts, |cfg.tests|);
    if cfg.stop {
      RunWithStopEndsAtFirstFailure(cfg, verdicts, |cfg.tests|);
    }
  }

  // ---------------------------------------------------------------------
  // Properties of a run
  // ---------------------------------------------------------------------

  /** The failure counter is positive exactly when some printed line is a failure. */
  lemma {:induction false} CountFailedPositive(lines: seq<Line>)
    ensures CountFailed(lines) > 0 <==> HasFailure(lines)
  {
    if lines != [] {
      var n := |lines| - 1;
      CountFailedPositive(lines[..n]);
      assert forall j :: 0 <= j < n ==> lines[..n][j] == lines[j];
    }
  }

  /** Once a failure has stopped the run, no further test adds a line. */
  lemma {:induction false} StoppedRunStaysStopped(cfg: Config, verdicts: seq<Verdict>, k: nat, m: nat)
    requires k <= m <= |cfg.tests| == |verdicts|
    requires cfg.stop && HasFailure(RunLines(cfg, verdicts, k))
    ensures RunLines(cfg, verdicts, m) == RunLines(cfg, verdicts, k)
    decreases m - k
  {
    if k < m {
      StoppedRunStaysStopped(cfg, verdicts, k, m - 1);
    }
  }

  /**
   * Tests run in list order: the j-th printed line is the j-th test's, and
   * no more tests run than the list holds.
   */
  lemma {:induction false} RunInOrder(cfg: Config, verdicts: seq<Verdict>, k: nat)
    requires k <= |cfg.tests| == |verdicts|
    ensures |RunLines(cfg, verdicts, k)| <= k
    ensures |RunLines(cfg, verdicts, k)| == k || (cfg.stop && HasFailure(RunLines(cfg, verdicts, k)))
    ensures forall j :: 0 <= j < |RunLines(cfg, verdicts, k)| ==>
      RunLines(cfg, verdicts, k)[j] == LineFor(cfg, verdicts, j)
  {
    if k > 0 {
      RunInOrder(cfg, verdicts, k - 1);
      var before := RunLines(cfg, verdicts, k - 1);
      if !(cfg.stop && HasFailure(before)) {
        var after := before + [LineFor(cfg, verdicts, k - 1)];
        assert RunLines(cfg, verdicts, k) == after;
        assert forall j :: 0 <= j < |before| ==> after[j] == before[j];
      }
    }
  }

  /** While the run has not been stopped, dealing with one more test prints its line. */
  lemma RunLinesStep(cfg: Config, verdicts: seq<Verdict>, k: nat)
    requires k < |cfg.tests| == |verdicts|
    requires !(cfg.stop && HasFailure(RunLines(cfg, verdicts, k)))
    ensures RunLines(cfg, verdicts, k + 1) ==
      RunLines(cfg, verdicts, k) + [LineFor(cfg, verdicts, k)]
  {
  }

  /** Without `--stop`, every test in the list is run. */
  lemma {:induction false} RunWithoutStopRunsAll(cfg: Config, verdicts: seq<Verdict>, k: nat)
    requires k <= |cfg.tests| == |verdicts| && !cfg.stop
    ensures |RunLines(cfg, verdicts, k)| == k
  {
    if k > 0 {
      RunWithoutStopRunsAll(cfg, verdicts, k - 1);
    }
  }

  /**
   * With `--stop`, no test runs after the first failing one: only the last
   * printed line can be a failure, and the run ends early only because of one.
   */
  lemma {:induction false} RunWithStopEndsAtFirstFailure(cfg: Config, verdicts: seq<Verdict>, k: nat)
    requires k <= |cfg.tests| == |verdicts| && cfg.stop
    ensures var lines := RunLines(cfg, verdicts, k);
      forall j :: 0 <= j < |lines| - 1 ==> lines[j].verdict.Passed?
    ensures var lines := RunLines(cfg, verdicts, k);
      |lines| < k ==> lines != [] && lines[|lines| - 1].verdict.Failed?
  {
    if k > 0 {
      RunWithStopEndsAtFirstFailure(cfg, verdicts, k - 1);
      var before := RunLines(cfg, verdicts, k - 1);
      if HasFailure(before) {
        var j :| 0 <= j < |before| && before[j].verdict.Failed?;
        assert j == |before| - 1;
      } else {
        var lines := before + [LineFor(cfg, verdicts, k - 1)];
        assert RunLines(cfg, verdicts, k) == lines;
        assert forall j :: 0 <= j < |before| ==> lines[j] == before[j] && before[j].verdict.Passed?;
      }
    }
  }

  /**
   * The counters sum to the number of tests run, and the exit code is 1
   * exactly when one of them failed.
   */
  lemma RunCounters(cfg: Config, tag: string, trusted: set<string>, env: nat -> TestEnv)
    ensures CountFailed(Run(cfg, tag, trusted, env)) <= |Run(cfg, tag, trusted, env)|
    ensures ExitCode(CountFailed(Run(cfg, tag, trusted, env))) == 1 <==>
      exists j :: 0 <= j < |cfg.tests| && j < |Run(cfg, tag, trusted, env)| &&
        TestVerdict(cfg, tag, trusted, cfg.tests[j], env(j)).Failed?
  {
    var verdicts := Verdicts(cfg, tag, trusted, env);
    var lines := Run(cfg, tag, trusted, env);
    CountFailedBound(lines);
    CountFailedPositive(lines);
    RunInOrder(cfg, verdicts, |cfg.tests|);
    forall j | 0 <= j < |lines|
      ensures lines[j].verdict == TestVerdict(cfg, tag, trusted, cfg.tests[j], env(j))
    {
      assert lines[j] == LineFor(cfg, verdicts, j);
      assert verdicts[j] == TestVerdict(cfg, tag, trusted, cfg.tests[j], env(j));
    }
  }

  lemma {:induction false} CountFailedBound(lines: seq<Line>)
    ensures CountFailed(lines) <= |lines|
  {
    if lines != [] {
      CountFailedBound(lines[..|lines| - 1]);
    }
  }

  // ---------------------------------------------------------------------
  // Which error decides a test
  // ---------------------------------------------------------------------

  /**
   * When the test's function threw a value other than `null`, nothing the
   * screenshot step does (capture, comparison, trusted files) changes how the
   * test ends: the screenshot is not validated and cannot mask that value.
   */
  lemma ScreenshotCannotMaskBody(cfg: Config, tag: string, trusted: set<string>, file: string, env: TestEnv,
                                 trusted': set<string>, capture': Option<Error>, compare': Result<nat, Error>)
    requires env.body.Some? && env.body.value != NullValue
    ensures FinalError(cfg, tag, trusted, file, env) ==
            FinalError(cfg, tag, trusted', file, env.(capture := capture', compare := compare'))
  {
  }

  /**
   * A test fails exactly when its setup threw, its function threw an error,
   * or its function threw nothing (or `null`) and the validated screenshot
   * check threw.
   */
  lemma TestFailsIffAnError(cfg: Config, tag: string, trusted: set<string>, file: string, env: TestEnv)
    ensures TestVerdict(cfg, tag, trusted, file, env).Failed? <==>
      env.setup.Some? ||
      (env.body.Some? && env.body.value.ErrorValue?) ||
      ((env.body.None? || env.body == Some(NullValue)) &&
       ScreenshotCheck(true, TrustedDir + ScreenshotName(tag, cfg.mobile, cfg.headless, file) in trusted,
                       env.capture, env.compare).Some?)
  {
  }

  /**
   * A test whose setup and function succeed, whose screenshot is written and
   * compared against an existing trusted one, fails exactly when the mismatch
   * is above zero, and the message names the percentage.
   */
  lemma MismatchDecidesCleanTest(cfg: Config, tag: string, trusted: set<string>, file: string, env: TestEnv, p: nat)
    requires env.setup.None? && env.body.None? && env.capture.None? && env.compare == Success(p)
    requires TrustedDir + ScreenshotName(tag, cfg.mobile, cfg.headless, file) in trusted
    ensures TestVerdict(cfg, tag, trusted, file, env).Failed? <==> p > 0
    ensures p > 0 ==> TestVerdict(cfg, tag, trusted, file, env) == Failed(FailureMessage(cfg.verbose, Error(MismatchMessage(p))))
  {
  }

  /** Without a trusted screenshot, a test whose steps all succeed passes whatever the mismatch. */
  lemma NoTrustedScreenshotPasses(cfg: Config, tag: string, trusted: set<string>, file: string, env: TestEnv)
    requires env.setup.None? && env.body.None? && env.capture.None?
    requires TrustedDir + ScreenshotName(tag, cfg.mobile, cfg.headless, file) !in trusted
    ensures TestVerdict(cfg, tag, trusted, file, env) == Passed
  {
  }

  /**
   * A test whose function throws `undefined`, `0`, `''` or `false` is
   * counted as passed, whatever the screenshot step does: the screenshot is
   * not validated, and an error from capturing it is dropped.
   */
  lemma FalsyThrowPasses(cfg: Config, tag: string, trusted: set<string>, file: string, env: TestEnv)
    requires env.setup.None? && env.body == Some(FalsyValue)
    ensures TestVerdict(cfg, tag, trusted, file, env) == Passed
  {
  }
}
