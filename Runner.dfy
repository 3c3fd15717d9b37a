/** The internal test runner: which test files run, how one file's outcome
    becomes a pass or a fail, the Windows skip policy and the doctest option
    flags each file runs with. */
module Runner {
  import opened Wrappers
  import PyText
  import Guards
  import opened DocChecker

  /** Width of the name column in the runner's report. */
  const TEST_NAME_WIDTH := 27

  /** How far into a test file the skip directive is looked for. */
  const SKIP_HEAD_LENGTH := 256

  // ---- the Windows skip directive ----------------------------------------

  /** A line reading `skip-windows:`, any number of blanks, then `yes`. */
  predicate IsSkipLine(line: string) {
    PyText.StartsWith(line, "skip-windows:") && PyText.EndsWith(line, "yes")
    && |line| >= 16
    && forall k :: 13 <= k < |line| - 3 ==> line[k] == ' '
  }

  /** `re.search(r"^skip-windows: *yes$", head, re.MULTILINE)`: some whole
      line of `head` is a skip line. */
  predicate HasSkipDirective(head: string) {
    exists i, j :: 0 <= i <= j <= |head|
      && (i == 0 || head[i - 1] == '\n')
      && (j == |head| || head[j] == '\n')
      && IsSkipLine(head[i..j])
  }

  /** The first 256 characters of a file, what `f.read(256)` returns. */
  function Head(text: string): (head: string)
    ensures |head| <= SKIP_HEAD_LENGTH && PyText.StartsWith(text, head)
    ensures |text| <= SKIP_HEAD_LENGTH ==> head == text
  {
    if |text| <= SKIP_HEAD_LENGTH then text else text[..SKIP_HEAD_LENGTH]
  }

  /** `_skip_windows_test`: only on Windows, and only for a readable file
      (`text` is `None` when opening or reading fails) whose first 256
      characters carry the directive. */
  function SkipWindowsTest(platform: string, text: Option<string>): (r: bool)
    ensures r <==> platform == "Windows" && text.Some? && HasSkipDirective(Head(text.value))
  {
    if platform != "Windows" then false
    else match text
      case None => false
      case Some(t) => HasSkipDirective(if |t| <= SKIP_HEAD_LENGTH then t else t[..SKIP_HEAD_LENGTH])
  }

  /** A title line followed by a skip line carries the directive. */
  lemma SkipDirectiveExample()
    ensures HasSkipDirective("# Test\n" + "skip-windows: yes" + "\n")
  {
    var a, line, b := "# Test\n", "skip-windows: yes", "\n";
    var head := a + line + b;
    assert head[|a|..|a| + |line|] == line;
    assert head[|a| - 1] == '\n' && head[|a| + |line|] == '\n';
    assert IsSkipLine(line);
  }

  // ---- one test file -----------------------------------------------------

  /** What `run_test_file` did with a test file: it could not be read
      (`IOError`), doctest ran it and counted `failures`, or it raised any
      other exception, named here by `exception`, which `_run_test` does
      not catch. */
  datatype FileOutcome = NotFound | Ran(failures: nat) | Raised(exception: string)

  /** `_run_test`: a file skipped on Windows passes without being run, a
      missing file fails, an uncaught exception propagates, and otherwise
      the file passes when no example failed. */
  function RunTest(platform: string, text: Option<string>, outcome: FileOutcome): (r: Result<bool, string>)
    ensures SkipWindowsTest(platform, text) ==> r == Ok(true)
    ensures !SkipWindowsTest(platform, text) && outcome.Raised? ==> r == Err(outcome.exception)
    ensures !SkipWindowsTest(platform, text) && !outcome.Raised? ==> r == Ok(outcome == Ran(0))
  {
    if SkipWindowsTest(platform, text) then Ok(true)
    else match outcome
      case NotFound => Ok(false)
      case Ran(failures) => Ok(failures == 0)
      case Raised(e) => Err(e)
  }

  /** Off Windows the skip directive is never consulted. */
  lemma RunTestOffWindows(platform: string, text: Option<string>, outcome: FileOutcome)
    requires platform != "Windows"
    ensures RunTest(platform, text, outcome).Ok? <==> !outcome.Raised?
    ensures RunTest(platform, text, outcome) == Ok(true) <==> outcome == Ran(0)
  {
  }

  // ---- run ---------------------------------------------------------------

  /** `skip or []` */
  function SkipList(skip: Option<seq<string>>): seq<string> {
    if skip.Some? then skip.value else []
  }

  /** The tests of `tests` that are not in `skip`, in order. */
  function NotSkipped(tests: seq<string>, skip: seq<string>): (r: seq<string>)
    ensures forall t :: t in r <==> t in tests && t !in skip
    ensures |r| <= |tests|
  {
    if |tests| == 0 then []
    else
      var init := NotSkipped(tests[..|tests| - 1], skip);
      var t := tests[|tests| - 1];
      assert forall u :: u in tests <==> u in tests[..|tests| - 1] || u == t;
      if t in skip then init else init + [t]
  }

  /** The index of the first test not in `skip` whose run raises, `|tests|`
      when none does. */
  function FirstRaise(tests: seq<string>, skip: seq<string>, runTest: string -> Result<bool, string>): (k: nat)
    ensures k <= |tests|
    ensures k < |tests| ==> tests[k] !in skip && runTest(tests[k]).Err?
    ensures forall j :: 0 <= j < k ==> tests[j] in skip || runTest(tests[j]).Ok?
  {
    if tests == [] then 0
    else if tests[0] !in skip && runTest(tests[0]).Err? then 0
    else
      var k := FirstRaise(tests[1..], skip, runTest);
      assert forall j :: 1 <= j < 1 + k ==> tests[j] == tests[1..][j - 1];
      1 + k
  }

  /** `FirstRaise` is the position of the first raise. */
  lemma FirstRaiseAt(tests: seq<string>, skip: seq<string>, runTest: string -> Result<bool, string>, i: nat)
    requires i <= |tests|
    requires i < |tests| ==> tests[i] !in skip && runTest(tests[i]).Err?
    requires forall j :: 0 <= j < i ==> tests[j] in skip || runTest(tests[j]).Ok?
    ensures FirstRaise(tests, skip, runTest) == i
  {
  }

  /** `run`: the tests not in `skip` are run in order, even after an earlier
      failure (`ran` lists them), until one raises; that exception ends the
      loop and propagates. Without one, the result is true exactly when
      every test run passed. `runTest` gives `_run_test`'s outcome for a name. */
  method Run(tests: seq<string>, skip: Option<seq<string>>, runTest: string -> Result<bool, string>)
    returns (r: Result<bool, string>, ran: seq<string>)
    ensures var k := FirstRaise(tests, SkipList(skip), runTest);
      k < |tests| ==> r == Err(runTest(tests[k]).error) && ran == NotSkipped(tests[..k + 1], SkipList(skip))
    ensures var k := FirstRaise(tests, SkipList(skip), runTest);
      k == |tests| ==> (ran == NotSkipped(tests, SkipList(skip))
        && r == Ok(forall t :: t in tests && t !in SkipList(skip) ==> runTest(t) == Ok(true)))
  {
    var skipped := if skip.Some? && skip.value != [] then skip.value else [];
    assert skipped == SkipList(skip);
    r, ran := RunLoop(tests, skipped, runTest);
    if r.Ok? {
      assert (forall t :: t in tests && t !in skipped ==> runTest(t) == Ok(true))
        <==> forall k :: 0 <= k < |tests| && tests[k] !in skipped ==> runTest(tests[k]) == Ok(true);
    }
  }

  /** The loop of `run` over the tests, positions in `skipped` left out. */
  method RunLoop(tests: seq<string>, skipped: seq<string>, runTest: string -> Result<bool, string>)
    returns (r: Result<bool, string>, ran: seq<string>)
    ensures var k := FirstRaise(tests, skipped, runTest);
      k < |tests| ==> r == Err(runTest(tests[k]).error) && ran == NotSkipped(tests[..k + 1], skipped)
    ensures var k := FirstRaise(tests, skipped, runTest);
      k == |tests| ==> (ran == NotSkipped(tests, skipped) && r.Ok?
        && (r.value <==> forall k :: 0 <= k < |tests| && tests[k] !in skipped ==> runTest(tests[k]) == Ok(true)))
  {
    var success := true;
    ran := [];
    for i := 0 to |tests|
      invariant ran == NotSkipped(tests[..i], skipped)
      invariant forall k :: 0 <= k < i ==> tests[k] in skipped || runTest(tests[k]).Ok?
      invariant success <==> forall k :: 0 <= k < i && tests[k] !in skipped ==> runTest(tests[k]) == Ok(true)
    {
      assert tests[..i + 1][..i] == tests[..i];
      if tests[i] !in skipped {
        var runSuccess := runTest(tests[i]);
        ran := ran + [tests[i]];
        if runSuccess.Err? {
          FirstRaiseAt(tests, skipped, runTest, i);
          return Err(runSuccess.error), ran;
        }
        success := success && runSuccess.value;
      }
    }
    assert tests[..|tests|] == tests;
    FirstRaiseAt(tests, skipped, runTest, |tests|);
    r := Ok(success);
  }

  /** Skipping a test that passes does not change whether the others pass. */
  lemma SkipPassingTest(tests: seq<string>, skip: seq<string>, t: string, runTest: string -> Result<bool, string>)
    requires runTest(t) == Ok(true)
    ensures (forall u :: u in tests && u !in skip + [t] ==> runTest(u) == Ok(true))
        <==> (forall u :: u in tests && u !in skip ==> runTest(u) == Ok(true))
  {
  }

  // ---- option flags and the Windows skip policy --------------------------

  /** `_report_first_flag`: set exactly when the environment has
      `REPORT_ONLY_FIRST_FAILURE=1`. */
  function ReportFirstFlag(env: map<string, string>): (r: set<OptionFlag>)
    ensures r <= {ReportOnlyFirstFailure}
    ensures ReportOnlyFirstFailure in r <==> "REPORT_ONLY_FIRST_FAILURE" in env && env["REPORT_ONLY_FIRST_FAILURE"] == "1"
  {
    if "REPORT_ONLY_FIRST_FAILURE" in env && env["REPORT_ONLY_FIRST_FAILURE"] == "1" then {ReportOnlyFirstFailure}
    else {}
  }

  /** The `optionflags` of `run_test_file`. */
  function RunTestFileFlags(env: map<string, string>): (r: set<OptionFlag>)
    ensures {Ellipsis, NormalizeWhitespace, NormalizePaths, Windows, StripU, StripL} <= r
    ensures Skip !in r
    ensures ReportOnlyFirstFailure in r <==> ReportOnlyFirstFailure in ReportFirstFlag(env)
  {
    ReportFirstFlag(env) + {Ellipsis, NormalizeWhitespace, NormalizePaths, Windows, StripU, StripL}
  }

  /** Inside `with Env({"REPORT_ONLY_FIRST_FAILURE": "1"})` test files report
      only their first failure. */
  lemma ReportFirstInEnvScope(env: map<string, string>)
    ensures ReportOnlyFirstFailure in RunTestFileFlags(Guards.Overlay(env, [("REPORT_ONLY_FIRST_FAILURE", "1")]))
  {
    Guards.EnvInScope(env, [("REPORT_ONLY_FIRST_FAILURE", "1")], 0);
  }

  /** One doctest example; the runner changes its option map in place. */
  class Example {
    var options: map<OptionFlag, bool>

    constructor (options: map<OptionFlag, bool>)
      ensures this.options == options
    {
      this.options := options;
    }
  }

  /** `options.get(WINDOWS)` is truthy. */
  predicate RunsOnWindows(options: map<OptionFlag, bool>) {
    Windows in options && options[Windows]
  }

  /** The options of an example after `_apply_skip_windows`. */
  function SkipOnWindows(options: map<OptionFlag, bool>): (r: map<OptionFlag, bool>)
    ensures RunsOnWindows(options) ==> r == options
    ensures !RunsOnWindows(options) ==> Skip in r && r[Skip]
    ensures forall f :: f != Skip ==> (f in r <==> f in options) && (f in options ==> r[f] == options[f])
  {
    if RunsOnWindows(options) then options else options[Skip := true]
  }

  /** Rewriting an example's options twice is the same as once. */
  lemma SkipOnWindowsIdempotent(options: map<OptionFlag, bool>)
    ensures SkipOnWindows(SkipOnWindows(options)) == SkipOnWindows(options)
  {
  }

  /** `_apply_skip_windows`: every example not marked for Windows is skipped.
      The same example may occur more than once. */
  method ApplySkipWindows(examples: seq<Example>)
    modifies set e | e in examples
    ensures forall k :: 0 <= k < |examples| ==> examples[k].options == SkipOnWindows(old(examples[k].options))
  {
    for i := 0 to |examples|
      invariant forall k :: 0 <= k < |examples| ==>
        examples[k].options == if examples[k] in examples[..i]
          then SkipOnWindows(old(examples[k].options)) else old(examples[k].options)
    {
      var e := examples[i];
      SkipOnWindowsIdempotent(old(e.options));
      if !(Windows in e.options && e.options[Windows]) {
        e.options := e.options[Skip := true];
      }
      assert examples[..i + 1] == examples[..i] + [e];
    }
    assert examples[..|examples|] == examples;
  }

  /** `TestRunner._apply_skip`: the Windows policy applies only on Windows. */
  method ApplySkip(platform: string, examples: seq<Example>)
    modifies set e | e in examples
    ensures platform == "Windows" ==>
      forall k :: 0 <= k < |examples| ==> examples[k].options == SkipOnWindows(old(examples[k].options))
    ensures platform != "Windows" ==>
      forall k :: 0 <= k < |examples| ==> examples[k].options == old(examples[k].options)
  {
    if platform == "Windows" {
      ApplySkipWindows(examples);
    }
  }
}
