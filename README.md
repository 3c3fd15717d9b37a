# Guild AI core logic in Dafny

This project models three self-contained parts of Guild AI and proves
properties about them.

- The internal test harness, `guild/_test.py`:
  - the scoped guards `Env`, `SysPath`, `Chdir` and `UserConfig`, each of
    which saves part of the process state on entry and puts it back on exit;
  - how the harness's `Project` helper settles the run directory of an
    operation before running it;
  - the runner, the Windows skip policy and the `optionflags` of a test file;
  - the rewrites `Py23DocChecker` applies to expected and actual output;
  - the exception-line shortening done by `_strip_error_module`;
  - the run-listing columns and the `ls` filter.
- Project and model loading, `guild/project.py`: a project is a list of
  models, and each model holds one operation per key of its `operations`
  mapping, sorted by name. The file covers the first-match lookups, the data
  coercions, and the `from_dir` fallback chain.
- The GPU stats plugin, `guild/plugins/gpu.py`: one CSV row of
  `nvidia-smi --query-gpu` output becomes nine `system/gpu/<index>/<name>`
  stats, and the stats of all rows are merged into one dictionary.

Modules:

| module | models |
|---|---|
| `Wrappers` | `Option` and `Result` |
| `PyText` | The Python string built-ins the code uses: `strip`, `startswith`/`endswith`, `rfind`, `posixpath.join`, `int(str)` and `str(int)` |
| `StrOrder` | Python's ordering of `str` and `sorted()` of a key set |
| `YamlData` | The values `yaml.load` returns, `dict.get`, `==` and `"%s" %` |
| `Guards` | `Env`, `SysPath`, `Chdir` and `UserConfig`, as classes over a `Process` object that holds `os.environ`, `sys.path`, the working directory and `configlib._user_config` |
| `TestProject` | The harness's `Project`: run-dir resolution, `_cols_for_print_runs` and `ls` |
| `DocChecker` | `Py23DocChecker`'s rewrites, `_strip_error_module` and `_strip_class_module` |
| `Runner` | `run`, `_run_test`, `_skip_windows_test`, `_report_first_flag`, `run_test_file`'s flags and `_apply_skip_windows` |
| `GuildProject` | `guild/project.py` |
| `Gpu` | `guild/plugins/gpu.py` |

Some code changes state step by step, and that code is imperative Dafny:

- Classes whose methods change fields: the guards, the harness `Project`'s
  keyword dictionary, and a doctest example's `options`.
- Loops with invariants: `Env.__enter__`/`__exit__`, `run`,
  `_apply_skip_windows` and the merge loop of `_gpu_stats`.

Every such method is specified by a function of its inputs and old state.
The properties are proved as lemmas about those functions. The rest is
functions and lemmas.

Python exceptions become `Err` values of a `Result`, in the order Python
raises them. The callees the code relies on but that are not modelled are
parameters of the model:

- `util.find_apply`'s run lookup;
- `runlib.mkid`, `mkdtemp`, `os.path.isfile` and `os.path.abspath`;
- `yaml.load`, and the models the plugins offer;
- `_strip_u`, and the float parsers `_parse_percent` and `_parse_watts`;
- the platform and the Python major version.

Where this model and a plain reading of the code might differ:

- `_run_dir_apply` uses `util.find_apply`, which returns the first result
  that is not `None`. So an explicit `run_dir` of `""` is returned as it
  is, and it stops the fallback chain.
- The `ls` filter tests `path.startswith(".guild")`. That test also
  matches a top-level name such as `.guildfoo`, and the model keeps that.

## Model

| member | source | states |
|---|---|---|
| `Guards.Process.constructor` | guild/_test.py:701-735 | The process cells start as given, and the user-configuration cell starts unset. |
| `Guards.RevertOpsFor` | guild/_test.py:709-715 | `__enter__` records one revert action per item, in item order. Each action is `Restore(old value)` for a bound name and `Delete` for an unbound one. |
| `Guards.Env.constructor` | guild/_test.py:703-705 | A new guard holds its items and an empty revert list. |
| `Guards.Overlay` | guild/_test.py:707-716 | The environment after binding each name in turn. Specified by `Guards.Env.Enter`, `Guards.OverlayOutside` and `Guards.EnvInScope`. |
| `Guards.Replay` | guild/_test.py:733-735 | Running the revert actions oldest first. Specified by `Guards.Env.Exit`, `Guards.ReplayAppend`, `Guards.ReplayUntouched`, `Guards.ReplayOutside` and `Guards.EnvRoundTrip`. |
| `Guards.Env.Enter` | guild/_test.py:707-716 | The loop binds every name to its value, in order. It appends exactly the revert actions of `RevertOpsFor` to the existing list. |
| `Guards.Env.Exit` | guild/_test.py:733-735 | The environment becomes the replay of every recorded revert action over it, oldest first. |
| `Guards.ReplayAppend` | guild/_test.py:733-735 | Replaying one more action is replaying the list and then applying that action. |
| `Guards.OverlayOutside` | guild/_test.py:709-716 | Entering leaves every variable not named in `vals` as it was: present exactly when it was, with the same value. |
| `Guards.ReplayUntouched` | guild/_test.py:719-731 | Revert actions for other names carry an update of `n` through unchanged. |
| `Guards.EnvRoundTrip` | guild/_test.py:707-735 | Entering and then leaving restores the environment exactly. A bound name gets its old value back, and an unbound name is absent again, not empty. |
| `Guards.EnvInScope` | guild/_test.py:707-716 | Inside the scope every name in `vals` maps to its given value. |
| `Guards.ReplayOutside` | guild/_test.py:719-735 | The revert actions touch only the names they were recorded for. |
| `Guards.EnvOthersUntouched` | guild/_test.py:707-735 | A variable not named in `vals` is untouched by entry, and by the revert actions from any starting environment. |
| `Guards.EnvScope` | guild/_test.py:701-735 | A `with Env(vals):` block around code that does not touch the environment leaves it exactly as it was. |
| `Guards.OrEmpty` | guild/_test.py:443-446 | An absent or empty `prepend`/`append` contributes nothing; a given list contributes itself. |
| `Guards.SysPath.constructor` | guild/_test.py:441-447 | The list to install is `prepend + base + append`. The base is `path` when given, even when empty, and the current `sys.path` otherwise. |
| `Guards.SysPath.Enter` | guild/_test.py:449-451 | Saves the current `sys.path` and installs the guard's list. |
| `Guards.SysPath.Exit` | guild/_test.py:453-455 | Fails its assertion exactly when the guard was never entered, leaving `sys.path` alone. Otherwise it restores the list saved at entry. |
| `Guards.SysPathScope` | guild/_test.py:437-455 | Inside the block `sys.path` is exactly `prepend + base + append`; afterwards it is the list seen at entry. |
| `Guards.Chdir.constructor` | guild/_test.py:422-423 | A new guard holds its path and has saved nothing. |
| `Guards.Chdir.Enter` | guild/_test.py:425-427 | Saves the working directory and changes to `path`. A relative `path` is reached from the old directory, and an absolute one replaces it. |
| `Guards.Chdir.Exit` | guild/_test.py:429-431 | Fails its assertion exactly when never entered. Otherwise it returns to the saved directory. |
| `Guards.ChdirScope` | guild/_test.py:418-431 | A `with Chdir(path)` block runs in `path`, joined onto the directory it started in, and ends in that starting directory. |
| `Guards.UserConfig.constructor` | guild/_test.py:679-691 | The guard holds a mock configuration whose `read()` gives `data`. |
| `Guards.UserConfig.Enter` | guild/_test.py:693-694 | Installs the mock configuration. |
| `Guards.UserConfig.Exit` | guild/_test.py:696-699 | Resets the cell to "re-read from disk". The earlier value is not restored. |
| `Guards.UserConfigScope` | guild/_test.py:688-699 | Inside the block the mock is installed, and afterwards the cell is reset, whatever it held before. |
| `TestProject.KwArgs.constructor` | guild/_test.py:487-489 | The keyword dictionary holds the given entries. |
| `TestProject.LookupRun` | guild/_test.py:522-531 | The directory of the run a spec names, or `NoSuchRun`. Used as `TestProject.RerunBeforeRestart` states. |
| `TestProject.FreshRunDir` | guild/_test.py:534-536 | `join(guild_home, "runs", id)`. Specified by `TestProject.FreshRunDirInjective` and `TestProject.FreshRunDirWhenNothingElse`. |
| `TestProject.ResolveRunDir` | guild/_test.py:493-538 | The directory `_run_dir_apply` settles on. Specified by `TestProject.ExplicitRunDirWins`, `TestProject.RerunBeforeRestart`, `TestProject.FreshRunDirWhenNothingElse` and `TestProject.ResolveAfterApply`. |
| `TestProject.MintsRunDir` | guild/_test.py:506-510 | Neither `run_dir` nor a non-empty rerun or restart spec is given. `TestProject.Project.RunDirApply` changes the keywords only then. |
| `TestProject.RestartRerunRunDir` | guild/_test.py:512-532 | With no spec there is no result. A non-empty `rerun` spec is looked up first, and a non-empty `restart` spec only when there is no rerun spec. |
| `TestProject.Project.constructor` | guild/_test.py:481-485 | `guild_home or mkdtemp()`: an absent or empty home is replaced by the fresh temporary directory. |
| `TestProject.Project.InitRunDirApply` | guild/_test.py:534-538 | Returns `join(guild_home, "runs", id)` and stores that same value under `run_dir`, changing nothing else. |
| `TestProject.Project.RunDirApply` | guild/_test.py:493-538 | The result is the resolved directory. The keywords change only when a fresh directory is minted, and then they hold it under `run_dir`. |
| `TestProject.ExplicitRunDirWins` | guild/_test.py:506-507 | An explicit `run_dir` is used as given, whatever else is passed. |
| `TestProject.RerunBeforeRestart` | guild/_test.py:506-531 | Without an explicit directory a rerun spec is looked up. A restart spec is consulted only when there is no rerun spec. |
| `TestProject.FreshRunDirWhenNothingElse` | guild/_test.py:506-536 | With neither `run_dir` nor a rerun or restart spec, the fresh `<guild_home>/runs/<id>` is used. For a relative id it ends with the id and starts with the runs path. In every other case no id is minted, so the result is the same whatever id `mkid()` would give. |
| `TestProject.ResolveAfterApply` | guild/_test.py:487-538 | After the keywords are updated, resolving them again gives the same directory, whatever id a later call would mint. So the run is read back from where it was written. |
| `TestProject.FreshRunDirInjective` | guild/_test.py:535-536 | Different relative run ids never share a fresh directory. |
| `TestProject.ColsForPrintRuns` | guild/_test.py:593-602 | `opspec` comes first. `flags`, `label` and `status` are present exactly when asked for, and the columns are in that fixed order without repeats. |
| `TestProject.Ls` | guild/_test.py:626-634 | A path is listed exactly when it is a run file that the filter accepts, and the listing is no longer than the file list. |
| `TestProject.LsAll` | guild/_test.py:628-630 | With `all` every file is listed, in order. |
| `TestProject.LsSorted` | guild/_test.py:634 | The listing keeps the ascending order of the file list. |
| `Runner.IsSkipLine` | guild/_test.py:131 | A whole line matching `skip-windows: *yes`. Used by `Runner.HasSkipDirective`. |
| `Runner.HasSkipDirective` | guild/_test.py:131 | Some whole line of the head is a skip line, as a search with `re.MULTILINE` finds it. Specified by `Runner.SkipWindowsTest` and `Runner.SkipDirectiveExample`. |
| `Runner.Head` | guild/_test.py:127 | `f.read(256)` is the file's first 256 characters, or the whole file when it is shorter. |
| `Runner.SkipWindowsTest` | guild/_test.py:121-131 | Skips exactly when the platform is Windows, the file is readable and its first 256 characters hold a `skip-windows: yes` line. |
| `Runner.SkipDirectiveExample` | guild/_test.py:131 | A `skip-windows: yes` line after a title line is found by the multi-line search. |
| `Runner.RunTest` | guild/_test.py:99-115 | A platform-skipped file passes. An exception other than `IOError` propagates. Otherwise the file passes exactly when it ran with no failures, so a missing file fails. |
| `Runner.RunTestOffWindows` | guild/_test.py:99-123 | Off Windows the test returns a verdict exactly when running the file raised nothing but `IOError`, and the verdict is true exactly when the file ran with no failures. |
| `Runner.NotSkipped` | guild/_test.py:89-90 | The tests that are run are exactly those not in `skip`, and there are no more of them than tests. |
| `Runner.FirstRaise` | guild/_test.py:85-97 | Names the first test not in `skip` whose run raises. Every test before it passes, fails or is skipped. |
| `Runner.FirstRaiseAt` | guild/_test.py:85-97 | A test that raises, with no test before it raising, is the first raise. |
| `Runner.RunLoop` | guild/_test.py:89-97 | The loop over the tests, with the same promise as `Runner.Run` on the resolved skip list. |
| `Runner.Run` | guild/_test.py:85-97 | Every test not in `skip` is run in order, even after a failure. A raising test stops the run with its exception, after the tests before it and that test itself have run. With no raise, the result is true exactly when every test that ran passed. |
| `Runner.SkipPassingTest` | guild/_test.py:85-97 | Adding a passing test to `skip` does not change the outcome. |
| `Runner.ReportFirstFlag` | guild/_test.py:159-162 | The flag is set exactly when `REPORT_ONLY_FIRST_FAILURE` is `"1"` in the environment; nothing else is set. |
| `Runner.RunTestFileFlags` | guild/_test.py:146-157 | A test file always runs with the six fixed flags and never with `SKIP`, and it reports only the first failure exactly when `_report_first_flag` says so. |
| `Runner.ReportFirstInEnvScope` | guild/_test.py:159-162 | Inside `with Env({"REPORT_ONLY_FIRST_FAILURE": "1"})` test files report only their first failure. |
| `Runner.Example.constructor` | guild/_test.py:233-235 | An example holds the given options. |
| `Runner.SkipOnWindows` | guild/_test.py:234-235 | An example marked for Windows keeps its options. Any other example gets `SKIP` set, and every other option is unchanged. |
| `Runner.SkipOnWindowsIdempotent` | guild/_test.py:231-235 | Applying the policy twice is the same as applying it once. |
| `Runner.ApplySkipWindows` | guild/_test.py:231-235 | Every example's options become the skip-policy rewrite of its old options, even when the same example occurs twice. |
| `Runner.ApplySkip` | guild/_test.py:227-229 | The policy applies on Windows only. Elsewhere no example changes. |
| `DocChecker.NormalizePathsFrom` | guild/_test.py:207 | The path rewrite leaves no backslash in its output. |
| `DocChecker.NormalizePathsStep` | guild/_test.py:207 | Each step of the scan turns a match into `/` or copies one character, then resumes after the match. |
| `DocChecker.NormalizePathsAhead` | guild/_test.py:207 | The rewrite from a position depends only on the text from there on. |
| `DocChecker.NormalizePathsShift` | guild/_test.py:207 | Text before the scan position never changes what follows. |
| `DocChecker.NormalizeWindowsPaths` | guild/_test.py:207 | The rewrite of a whole string has no backslash, and text without one is unchanged. |
| `DocChecker.NormalizePathsUnchanged` | guild/_test.py:207 | A backslash-free run is copied unchanged. |
| `DocChecker.NormalizePathsCopies` | guild/_test.py:207 | A character where no match starts is copied, and the rest is rewritten on its own. |
| `DocChecker.NormalizePathsBackslashes` | guild/_test.py:207 | One or two backslashes become one `/`. |
| `DocChecker.NormalizePathsDrive` | guild/_test.py:207 | A drive prefix `X:` (`X` from `c` to `z`, either case) followed by one or two backslashes becomes one `/`. |
| `DocChecker.NormalizePathsNotDrive` | guild/_test.py:207 | After `a:` or `b:` the letter and colon are kept, and only the backslash becomes `/`. |
| `DocChecker.WindowsGot` | guild/_test.py:203-208 | Under `NORMALIZE_PATHS` the output has no backslash. Without the flag, or without backslashes, the output is unchanged. |
| `DocChecker.WindowsGotExample` | guild/_test.py:207 | `C:\x\y` becomes `/x/y`, and a doubled backslash becomes one `/`. |
| `DocChecker.StripLFrom` | guild/_test.py:201 | The regular-expression scan of `([0-9]+)L` from a position. Specified by `DocChecker.StripLFromKeeps` and `DocChecker.StripLFromSuffix`. |
| `DocChecker.StripLongSuffixes` | guild/_test.py:198-201 | `_strip_L`. Specified by `DocChecker.StripLongSuffixesKeeps` against the reference `KeepFrom`, and by `DocChecker.StripLongLiteral` and `DocChecker.StripLongSuffixesNotIdempotent`. |
| `DocChecker.StripLongSuffixesKeeps` | guild/_test.py:198-201 | The left-to-right regular-expression rewrite removes exactly the `L`s that directly follow a digit and keeps every other character in order. |
| `DocChecker.KeepFromSuffix` | guild/_test.py:201 | A digit run ending in `L` keeps its digits and loses its `L`. |
| `DocChecker.KeptAfterUnmatched` | guild/_test.py:201 | Where no digit run ending in `L` starts, the next character survives. |
| `DocChecker.StripLFromKeeps` | guild/_test.py:201 | The rewrite from any kept position onward equals the character-wise reference definition. |
| `DocChecker.StripLFromSuffix` | guild/_test.py:201 | The same at a position where a digit run ending in `L` is matched. |
| `DocChecker.KeepFromDigits` | guild/_test.py:201 | All digits of a run survive. |
| `DocChecker.StripLongLiteral` | guild/_test.py:198-201 | A Python 2 long literal `str(n) + "L"` becomes `str(n)`. |
| `DocChecker.StripLongSuffixesNotIdempotent` | guild/_test.py:201 | `1LL` becomes `1L`, which becomes `1`, so the rewrite is not idempotent. |
| `DocChecker.Py2Got` | guild/_test.py:182-187 | `_py2_got`. Specified by `DocChecker.Py2GotKeeps`. |
| `DocChecker.Py2GotKeeps` | guild/_test.py:182-187 | Under `STRIP_L` the result drops exactly the `L`s that directly follow a digit, after `_strip_u` when `STRIP_U` is set. Without `STRIP_L`, no `L` is touched. |
| `DocChecker.Got` | guild/_test.py:175-188 | On Python 3, output is unchanged unless the platform is Windows and `NORMALIZE_PATHS` is set, and then the result has no backslash. |
| `DocChecker.Want` | guild/_test.py:210-215 | A leading `???` becomes `...`. The rest, the length, and any text without that prefix are unchanged. |
| `DocChecker.WantIdempotent` | guild/_test.py:210-215 | Rewriting the expected text twice is the same as once. |
| `DocChecker.StripClassModule` | guild/_test.py:383-384 | The result is a suffix of the name with no `.`, and it directly follows the last `.` when there is one. Without a dot it is the whole name. |
| `DocChecker.StripClassModuleOfQualified` | guild/_test.py:383-384 | `path.Name` becomes `Name`. |
| `DocChecker.MatchErrorLine` | guild/_test.py:377 | A match splits the line into a `[\w.]+` name, `": "`, and a non-empty message up to the end of its line. |
| `DocChecker.MatchErrorLineComplete` | guild/_test.py:377 | Any such split of the line is the one the match finds, so the groups are unique. |
| `DocChecker.StripErrorModule` | guild/_test.py:376-381 | On a `name: message` line only the name loses its module path. Any other line is shortened as a class name. |
| `DocChecker.StripErrorModuleQualified` | guild/_test.py:376-384 | `path.Name: message` becomes `Name: message`, and text after the message's line is dropped. |
| `GuildProject.CoerceOpData` | guild/project.py:92-103 | A string `s` becomes `{"cmd": s}`, and any other value is returned unchanged. |
| `GuildProject.OperationOf` | guild/project.py:74-83 | An operation is built exactly when its data is a string or a mapping, with its name and its model's name. Its `description` and `cmd` come from the coerced data. `flags` defaults to `{}` and `disabled-plugins` to `[]`. Otherwise the `.get` raises `AttributeError`. |
| `GuildProject.StringOperation` | guild/project.py:92-103 | A bare command string gives an operation with that command and the defaults for everything else. |
| `GuildProject.FullName` | guild/project.py:85-87 | The full name is the model name, then `:`, then the operation name. |
| `GuildProject.FullNameOfNamedModel` | guild/project.py:85-87 | For a model named `m` it is `m + ":" + name`. |
| `GuildProject.OpsFor` | guild/project.py:70 | The list comprehension over the keys, in the order given. Specified by `GuildProject.OpsForSpec`. |
| `GuildProject.OpsForSpec` | guild/project.py:70 | The operations load exactly when every entry does. There is one per key, in key order, named by its key and built from its entry. |
| `GuildProject.SortedOps` | guild/project.py:68-70 | `_sorted_ops`. Specified by `GuildProject.SortedOpsOk` and `GuildProject.SortedOpsSpec`. |
| `GuildProject.SortedOpsOk` | guild/project.py:68-70 | `_sorted_ops` fails exactly when some entry is neither a string nor a mapping. |
| `GuildProject.SortedOpsSpec` | guild/project.py:68-70 | There is one operation per key, in strictly ascending name order, each built from its key's entry. |
| `GuildProject.ModelOf` | guild/project.py:49-57 | A model is built only from a mapping, keeps that mapping, and is named by its `name` entry. |
| `GuildProject.ModelOfSpec` | guild/project.py:49-70 | Building a model raises `AttributeError` unless the data and its `operations` entry are mappings. Otherwise it fails exactly when `_sorted_ops` does, with that error. A built model's operations are `_sorted_ops` of the entry. Its `version`, `description`, `flags` and `disabled-plugins` come from the data, with their defaults. |
| `GuildProject.LoadedModelOps` | guild/project.py:55-70 | A loaded model has one operation per key of its `operations` entry, in strictly ascending name order, each built from that key's entry. |
| `GuildProject.GetOp` | guild/project.py:59-63 | Finds nothing exactly when no operation has the name. Otherwise it finds the first one that has it. |
| `GuildProject.GetOpOfSortedOps` | guild/project.py:55-70 | On sorted operations, `get_op(n)` finds one exactly when `n` is a key, and it is the operation built from that key's entry. |
| `GuildProject.GetOpOfLoadedModel` | guild/project.py:49-63 | The same for a model as loaded from its data. |
| `GuildProject.ModelsOf` | guild/project.py:25-27 | The list comprehension of `Project.__init__`. Specified by `GuildProject.ModelsOfSpec` and `GuildProject.ModelsOfFirstError`. |
| `GuildProject.ModelsOfSpec` | guild/project.py:25-27 | The models load exactly when every entry does, one model per entry, each built from it. |
| `GuildProject.ModelsOfFirstError` | guild/project.py:25-27 | The first failing entry's exception is the project's. |
| `GuildProject.ProjectOf` | guild/project.py:22-27 | A project keeps its data and source. |
| `GuildProject.ProjectOfModels` | guild/project.py:22-27 | A project loads exactly when every model does, and holds one model per entry, each built from it. |
| `GuildProject.FindModel` | guild/project.py:33-34 | The index of the first model with the name, or the model count when none has it. |
| `GuildProject.Get` | guild/project.py:32-36 | Returns the first model whose name equals the argument, and `default` when none does. |
| `GuildProject.GetFindsFirstNamed` | guild/project.py:32-36 | Without a default, `get` finds a model exactly when some model has the name, and what it finds is the first such model. |
| `GuildProject.GetItem` | guild/project.py:38-42 | Raises `KeyError(name)` exactly when `get` finds nothing. Otherwise it returns the model `get` finds. |
| `GuildProject.DefaultModel` | guild/project.py:44-45 | The first model, or `None` exactly when there are no models. |
| `GuildProject.LoadModelfile` | guild/project.py:133-141 | A list is returned as is and a mapping becomes a one-element list. Anything else raises `ProjectFormatError(path)`. |
| `GuildProject.FromFile` | guild/project.py:130-131 | A project loaded from `src` has `src` as its source. |
| `GuildProject.FirstFile` | guild/project.py:112-114 | The index of the first of `filenames` that is a file under `path`, or the list length when none is. |
| `GuildProject.TryFromDirFile` | guild/project.py:111-116 | Returns `None` exactly when no listed name is a file. Otherwise it returns the project of the first one that is. |
| `GuildProject.TryFromPlugin` | guild/project.py:118-125 | Returns `None` exactly when the plugins offer no model. Otherwise it returns the generated project at `path/__generated__`. |
| `GuildProject.FromDir` | guild/project.py:105-116 | Uses the first listed model file. Failing that, it uses the plugins' models when plugins are enabled and there are some. Failing that, it raises `NoModels`. |
| `GuildProject.FromDirDefaults` | guild/project.py:105-116 | With its defaults, `from_dir(path)` reads `MODELS`, else `MODEL`, else the plugins' models, else raises `NoModels`. |
| `StrOrder.Less` | guild/project.py:69 | Python `str` order by code points, a proper prefix first. Specified by `StrOrder.LessTotal` and `StrOrder.LessTransitive`. |
| `StrOrder.Sorted` | guild/project.py:69 | `sorted(keys)` holds every key once, in strictly ascending order. |
| `StrOrder.LessTotal` | guild/project.py:69 | Distinct strings are always ordered one way or the other. |
| `StrOrder.LessTransitive` | guild/project.py:69 | String order is transitive. |
| `YamlData.Lookup` | guild/project.py:52-57 | `d.get(key, default)` is the entry when present and the default otherwise. |
| `YamlData.PyEq` | guild/project.py:34 | Python `==` on loaded values. Specified by `YamlData.PyEqReflexive`, `YamlData.PyEqSymmetric` and `YamlData.PyEqStr`. |
| `YamlData.Display` | guild/project.py:86-87 | `"%s" % v`. Used by `GuildProject.FullName`, whose contract states the full name it gives. |
| `YamlData.PyEqReflexive` | guild/project.py:34 | Every loaded value is `==` to itself, lists and maps included. |
| `YamlData.PyEqSymmetric` | guild/project.py:34 | `a == b` implies `b == a`. `True` and `False` equal 1 and 0 in either order and at any depth of lists and maps. |
| `YamlData.PyEqStr` | guild/project.py:34 | A string model name matches only that same string. |
| `Gpu.ParseRaw` | guild/plugins/gpu.py:100-105 | `None` exactly when the stripped field is `[Not Supported]`. Otherwise it is what the parser gives on the stripped field, including its exception. |
| `Gpu.ParseRawPadded` | guild/plugins/gpu.py:101 | Whitespace around a CSV field never changes how it parses. |
| `Gpu.ParseBytes` | guild/plugins/gpu.py:118-120 | A value without the ` MiB` suffix fails its assertion, and a parsed value is a whole number of mebibytes. |
| `Gpu.ParseBytesOfMiB` | guild/plugins/gpu.py:118-120 | `"N MiB"` is `N * 1024 * 1024`. |
| `Gpu.ParseBytesValue` | guild/plugins/gpu.py:118-120 | For any value with the ` MiB` suffix, the result is `int()` of the rest times 1024 * 1024, and it is `ValueError` when `int()` fails. |
| `Gpu.ParsePstate` | guild/plugins/gpu.py:107-109 | A value without the leading `P` fails its assertion. A parsed value is `int()` of the rest. |
| `Gpu.ParsePstateOfState` | guild/plugins/gpu.py:107-109 | `"Pn"` is `n`. |
| `Gpu.ParsePstateValue` | guild/plugins/gpu.py:107-109 | For any value with the leading `P`, the result is `int()` of the rest, and it is `ValueError` when `int()` fails. |
| `Gpu.ParseIntField` | guild/plugins/gpu.py:111-112 | Succeeds exactly when `int()` does, with its value; otherwise it raises `ValueError`. |
| `Gpu.GpuValKeyInjective` | guild/plugins/gpu.py:126-127 | Keys of one GPU, `system/gpu/<index>/<name>`, differ exactly when their names differ. |
| `Gpu.ParseField` | guild/plugins/gpu.py:100-105 | `_parse_raw` with the parser of a field kind. Specified by `Gpu.ParseFieldValue`. |
| `Gpu.ParseFieldValue` | guild/plugins/gpu.py:100-105 | A field is `None` exactly when it is the sentinel, and a parsed value keeps its parser's type. |
| `Gpu.MemFree` | guild/plugins/gpu.py:92 | Defined exactly on two integers, and then `free + used == total`. `None` on either side raises `TypeError`. |
| `Gpu.ParseRow` | guild/plugins/gpu.py:82-97 | A parsed row holds what its columns parse to. A row with fewer than four columns raises `IndexError`. |
| `Gpu.ParseRowComplete` | guild/plugins/gpu.py:82-97 | A row whose nine columns all parse, with integer memory figures, parses to exactly that row and gives exactly its stats. |
| `Gpu.RowReadFromUnique` | guild/plugins/gpu.py:82-97 | The columns determine the row read from them. |
| `Gpu.ParseRowShort` | guild/plugins/gpu.py:82-97 | A row of four to eight columns raises `IndexError` at its first missing column once the fields evaluated before that column have parsed. |
| `Gpu.Vals` | guild/plugins/gpu.py:87-97 | The nine stat names, in the listed order. |
| `Gpu.NamesDistinct` | guild/plugins/gpu.py:87-97 | No stat name is listed twice. |
| `Gpu.RowStats` | guild/plugins/gpu.py:98 | The dictionary `_calc_gpu_stats` builds from a row. Specified by `Gpu.RowStatsKeys`, `Gpu.RowStatsAt`, `Gpu.RowStatsLookup` and `Gpu.RowMemFree`. |
| `Gpu.RowStatsKeys` | guild/plugins/gpu.py:98 | The dictionary of a row has exactly nine keys, all those of its GPU. |
| `Gpu.RowStatsAt` | guild/plugins/gpu.py:98 | The stat listed `i`-th is stored under its name's key. |
| `Gpu.RowStatsLookup` | guild/plugins/gpu.py:87-98 | Each stat of a row is stored under its own name's key. |
| `Gpu.RowFields` | guild/plugins/gpu.py:82-98 | Each stat read from a column is that column parsed the field's way, with `util` from column 5 and `mem_util` from column 6. |
| `Gpu.RowMemFree` | guild/plugins/gpu.py:85-92 | In a row's stats, `mem_free` is `mem_total - mem_used`, both integers. |
| `Gpu.CalcGpuStats` | guild/plugins/gpu.py:82-98 | `_calc_gpu_stats`. Specified by `Gpu.CalcGpuStatsKeys`, `Gpu.CalcGpuStatsFields`, `Gpu.CalcGpuStatsMemFree`, `Gpu.ParseRowComplete` and `Gpu.ParseRowShort`. |
| `Gpu.CalcGpuStatsRow` | guild/plugins/gpu.py:82-98 | The stats of a row are the dictionary of the row it parses to. |
| `Gpu.CalcGpuStatsKeys` | guild/plugins/gpu.py:82-98 | `_calc_gpu_stats` yields exactly nine keys, all under `system/gpu/<raw[0]>/`. |
| `Gpu.CalcGpuStatsFields` | guild/plugins/gpu.py:82-98 | Each stat is its column in `STATS` order parsed the field's way. |
| `Gpu.CalcGpuStatsMemFree` | guild/plugins/gpu.py:85-92 | `mem_free` equals `mem_total - mem_used`, both integers. |
| `Gpu.StandardMemoryInMiB` | guild/plugins/gpu.py:118-120 | With the plugin's own parsers, both memory figures are whole numbers of mebibytes. |
| `Gpu.UnsupportedMemoryFails` | guild/plugins/gpu.py:85-92 | A `[Not Supported]` memory figure makes the row raise `TypeError` once the fields before `mem_free` have parsed. |
| `Gpu.RowResults` | guild/plugins/gpu.py:50-51 | One `_calc_gpu_stats` result per row, in order. |
| `Gpu.Merge` | guild/plugins/gpu.py:49-52 | The rows' dictionaries merged in order with `dict.update`, or the first exception. Specified by `Gpu.MergeOk`, `Gpu.MergeFirstError`, `Gpu.MergeKeys` and `Gpu.MergeLastWins`. |
| `Gpu.MergeRows` | guild/plugins/gpu.py:49-52 | The loop's result is every row's dictionary merged in order, with the first exception propagating. |
| `Gpu.GpuStats` | guild/plugins/gpu.py:48-52 | `_gpu_stats` is the merge of every row's `_calc_gpu_stats`. |
| `Gpu.MergeErrorPersists` | guild/plugins/gpu.py:50-51 | Once a row has raised, later rows do not matter. |
| `Gpu.MergeOk` | guild/plugins/gpu.py:48-52 | The merge succeeds exactly when every row does. |
| `Gpu.MergeFirstError` | guild/plugins/gpu.py:48-52 | A failure is the first failing row's exception. |
| `Gpu.MergeKeys` | guild/plugins/gpu.py:48-52 | A key is in the merged stats exactly when some row has it. |
| `Gpu.MergeLastWins` | guild/plugins/gpu.py:48-52 | A key's merged value is that of the last row that has it, so a later row overrides an earlier one. |
| `PyText.Strip` | guild/plugins/gpu.py:101 | `strip()`'s result neither starts nor ends with whitespace. |
| `PyText.StripDecomposes` | guild/plugins/gpu.py:101 | What `strip()` removes is whitespace before and after the result. |
| `PyText.StripOfPadding` | guild/plugins/gpu.py:101 | Any whitespace-padded reading of a string is what `strip()` gives. |
| `PyText.PaddingUnique` | guild/plugins/gpu.py:101 | There is only one way to strip a string. |
| `PyText.StripPadded` | guild/plugins/gpu.py:101 | Extra whitespace around a string does not change its `strip()`. |
| `PyText.StripIdempotent` | guild/plugins/gpu.py:101 | `strip()` is idempotent. |
| `PyText.RFind` | guild/_test.py:384 | `rfind` gives the last index of the character, or -1 when it does not occur. |
| `PyText.Join` | guild/_test.py:536 | `posixpath.join`: an absolute second part replaces the first. Otherwise the result starts with the first part and ends with the second. |
| `PyText.JoinInjective` | guild/_test.py:536 | Different relative last components give different joined paths. |
| `PyText.NatDecimal` | guild/project.py:87 | `str(n)` of a natural number is digits, with no leading zero. |
| `PyText.Decimal` | guild/project.py:87 | `str(n)` is non-empty and has no surrounding whitespace. |
| `PyText.ParseInt` | guild/plugins/gpu.py:107-112 | After stripping, `int()` succeeds exactly on digits with an optional `+` or `-` sign. Its value is the digits' decimal value, negated after `-`. |
| `PyText.NatDecimalValue` | guild/plugins/gpu.py:107-112 | The digits of `str(n)` have the value `n`. |
| `PyText.StripDecimal` | guild/plugins/gpu.py:101 | `str(n)` is unchanged by `strip()`. |
| `PyText.ParseIntDecimal` | guild/plugins/gpu.py:107-112 | `int(str(n)) == n`. |

## Left out

- `doctest.OutputChecker.check_output`, ellipsis and whitespace matching: library code that is not part of this model. Only the rewrites applied before it are modelled.
- `_strip_u`: Python 2 only and built on non-greedy regular expressions. It is a parameter `stripU` of `DocChecker.Got`.
- All I/O is outside the model. This covers:
  - reading test files and the 256-character head in `_skip_windows_test`, which becomes an `Option<string>` parameter;
  - `yaml.load`, `os.path.isfile`, `os.path.abspath`, `find2`, `mkdtemp`, `cat` and `write`;
  - stdout/stderr logging and `StderrCapture`;
  - the `traceback` monkeypatch.
- `runlib.mkid` and the rerun/restart run lookup (`marked_or_latest_run_from_spec`, `one_run`): these are a run-id parameter and a lookup function.
- The `gapi.*` pass-throughs, the `RunIndex` scalar lookups, `cli.table` and `_simplify_trial_output`: these are calls into other modules.
- `ModelPath`, `Proxy` and the other harness helpers: these fall outside the modelled core.
- `from_file_or_dir`, `Model.__repr__` and `Operation.__repr__`: these fall outside the modelled core.
- The GPU plugin runtime is outside the model: `_stats_cmd`, `_read_raw_gpu_stats`, CSV decoding, the TensorFlow hook and the `Timer`. `_gpu_stats` takes the decoded rows as input.
- `_parse_percent` and `_parse_watts`: floating point. They are the `percent` and `watts` function parameters of `Gpu.Standard`.
- Runner.RunTest: what running a test file produces is a `FileOutcome` parameter: a failure count, the `IOError` of a missing file, or another exception.
- Gpu.ParseRow: the row lemmas hold for any parsers, and only `Gpu.StandardMemoryInMiB` fixes the plugin's own parsers.
- Gpu.GpuStats: the loop itself is `Gpu.MergeRows`, generic over the per-row function. `GpuStats` passes it `_calc_gpu_stats`.
- Plugin iteration in `_try_from_plugin`: the plugins' models for a location are a function of the host.
- `util.find_apply` is not part of this model. It is taken as "the first result that is not `None`".
- PyText.ParseInt: does not accept `_` digit separators or non-ASCII digits, which Python's `int()` does.
- DocChecker.MatchErrorLine: `\w` is ASCII letters, digits and `_` only, not every Unicode word character.
- PyText.Decimal: ASCII digits only.
- YamlData.Value: YAML floats, dates and non-string mapping keys are not modelled, because model files in this scope do not need them.
- GuildProject.FullName: `"%s" %` of a list or mapping value is a fixed placeholder, not Python's `repr`.
- Guards.Env.Enter: re-entering the same guard appends a second set of revert actions, as the source does, and the list is never cleared. The round-trip lemma covers one entry. The closures are the `RevertOp` values.
- Guards.SysPath.constructor: `sys.path` is a value. On entry the model installs the guard's list by value, so changes made through an alias of the Python list object are not modelled.
- Guards.Chdir.Enter: a failing `os.chdir` is not modelled, and the directory is taken to exist. The new directory is the old one joined with `path`, with no normalisation of `..` or `.` and no resolution of symbolic links.
- `os.path.join` is `posixpath.join`. The `ntpath` rules on Windows are not modelled.
- Keyword arguments are a map from names to strings. A keyword passed as `None` is absent.
- The platform string and Python's major version are parameters.
