/** The test harness's `Project` helper: how it settles the run directory of
    an operation before running it, the columns it prints for runs, and the
    filter of its `ls` listing. */
module TestProject {
  import opened Wrappers
  import PyText
  import StrOrder

  /** The keyword arguments of a `run` call that the run-directory logic
      reads and writes. A keyword passed as `None` is absent from `vals`. */
  class KwArgs {
    var vals: map<string, string>

    constructor (vals: map<string, string>)
      ensures this.vals == vals
    {
      this.vals := vals;
    }
  }

  /** The rerun or restart spec matched no single run. */
  datatype RunDirError = NoSuchRun(spec: string)

  /** `_maybe_restart_rerun_run_dir`: a non-empty `rerun` spec is looked up
      first, then a non-empty `restart` spec; `lookup` stands for the run
      index search and yields the matched run's directory. `None` means the
      keywords name neither. */
  function RestartRerunRunDir(kw: map<string, string>, lookup: string -> Option<string>)
    : (r: Option<Result<string, RunDirError>>)
    ensures r.None? <==> NoSpec(kw, "rerun") && NoSpec(kw, "restart")
    ensures !NoSpec(kw, "rerun") ==> r == Some(LookupRun(kw["rerun"], lookup))
    ensures NoSpec(kw, "rerun") && !NoSpec(kw, "restart") ==> r == Some(LookupRun(kw["restart"], lookup))
  {
    if "rerun" in kw && kw["rerun"] != "" then Some(LookupRun(kw["rerun"], lookup))
    else if "restart" in kw && kw["restart"] != "" then Some(LookupRun(kw["restart"], lookup))
    else None
  }

  /** A falsy spec: absent or empty. */
  predicate NoSpec(kw: map<string, string>, name: string) {
    name !in kw || kw[name] == ""
  }

  function LookupRun(spec: string, lookup: string -> Option<string>): Result<string, RunDirError> {
    match lookup(spec)
    case Some(dir) => Ok(dir)
    case None => Err(NoSuchRun(spec))
  }

  /** `os.path.join(guild_home, "runs", run_id)` */
  function FreshRunDir(guildHome: string, runId: string): string {
    PyText.Join(PyText.Join(guildHome, "runs"), runId)
  }

  /** The run directory `_run_dir_apply` settles on, given the id `mkid()`
      would mint: the first of the explicit `run_dir`, the rerun/restart
      run's directory, and a fresh directory under the runs path. */
  function ResolveRunDir(guildHome: string, kw: map<string, string>, runId: string,
                         lookup: string -> Option<string>): Result<string, RunDirError> {
    if "run_dir" in kw then Ok(kw["run_dir"])
    else match RestartRerunRunDir(kw, lookup)
      case Some(r) => r
      case None => Ok(FreshRunDir(guildHome, runId))
  }

  /** Whether `_run_dir_apply` falls through to minting a new directory. */
  predicate MintsRunDir(kw: map<string, string>) {
    "run_dir" !in kw && NoSpec(kw, "rerun") && NoSpec(kw, "restart")
  }

  class Project {
    const guildHome: string
    const cwd: string

    /** `guild_home or mkdtemp()`: an absent or empty home is replaced by the
        fresh temporary directory `tempDir`. */
    constructor (cwd: string, guildHome: Option<string>, tempDir: string)
      ensures this.cwd == cwd
      ensures guildHome.Some? && guildHome.value != "" ==> this.guildHome == guildHome.value
      ensures guildHome.None? || guildHome.value == "" ==> this.guildHome == tempDir
    {
      this.cwd := cwd;
      this.guildHome := if guildHome.Some? && guildHome.value != "" then guildHome.value else tempDir;
    }

    /** The runs path the project's run index reads. */
    function RunsPath(): string {
      PyText.Join(guildHome, "runs")
    }

    /** `_init_run_dir_apply`: mints the directory for `runId` and records it
        in the keywords. */
    method InitRunDirApply(kw: KwArgs, runId: string) returns (runDir: string)
      modifies kw
      ensures runDir == PyText.Join(RunsPath(), runId)
      ensures kw.vals == old(kw.vals)["run_dir" := runDir]
    {
      runDir := PyText.Join(PyText.Join(guildHome, "runs"), runId);
      kw.vals := kw.vals["run_dir" := runDir];
    }

    /** `_run_dir_apply`: the keywords change only when a new directory is
        minted, and then they hold it under `run_dir`. */
    method RunDirApply(kw: KwArgs, runId: string, lookup: string -> Option<string>)
      returns (r: Result<string, RunDirError>)
      modifies kw
      ensures r == ResolveRunDir(guildHome, old(kw.vals), runId, lookup)
      ensures MintsRunDir(old(kw.vals)) ==> r.Ok? && kw.vals == old(kw.vals)["run_dir" := r.value]
      ensures !MintsRunDir(old(kw.vals)) ==> kw.vals == old(kw.vals)
    {
      if "run_dir" in kw.vals {
        return Ok(kw.vals["run_dir"]);
      }
      var found := RestartRerunRunDir(kw.vals, lookup);
      if found.Some? {
        return found.value;
      }
      var dir := InitRunDirApply(kw, runId);
      r := Ok(dir);
    }
  }

  /** An explicit `run_dir` is used as given, whatever else is passed. */
  lemma ExplicitRunDirWins(guildHome: string, kw: map<string, string>, runId: string,
                           lookup: string -> Option<string>)
    requires "run_dir" in kw
    ensures ResolveRunDir(guildHome, kw, runId, lookup) == Ok(kw["run_dir"])
  {
  }

  /** Without an explicit directory a rerun spec is looked up, and a restart
      spec is consulted only when there is no rerun spec. */
  lemma RerunBeforeRestart(guildHome: string, kw: map<string, string>, runId: string,
                           lookup: string -> Option<string>)
    requires "run_dir" !in kw
    ensures !NoSpec(kw, "rerun") ==>
      ResolveRunDir(guildHome, kw, runId, lookup) == LookupRun(kw["rerun"], lookup)
    ensures NoSpec(kw, "rerun") && !NoSpec(kw, "restart") ==>
      ResolveRunDir(guildHome, kw, runId, lookup) == LookupRun(kw["restart"], lookup)
  {
  }

  /** With neither `run_dir` nor a rerun or restart spec, the fresh
      directory of the run id under the runs path is used; otherwise no id is
      minted, so the result is the same whatever id `mkid()` would give. */
  lemma FreshRunDirWhenNothingElse(guildHome: string, kw: map<string, string>, runId: string,
                                   otherId: string, lookup: string -> Option<string>)
    ensures MintsRunDir(kw) ==>
      ResolveRunDir(guildHome, kw, runId, lookup) == Ok(FreshRunDir(guildHome, runId))
    ensures !MintsRunDir(kw) ==>
      ResolveRunDir(guildHome, kw, runId, lookup) == ResolveRunDir(guildHome, kw, otherId, lookup)
    ensures MintsRunDir(kw) && !PyText.StartsWith(runId, "/") ==>
      PyText.EndsWith(FreshRunDir(guildHome, runId), runId)
      && PyText.StartsWith(FreshRunDir(guildHome, runId), PyText.Join(guildHome, "runs"))
  {
  }

  /** After `_run_dir_apply` the keywords resolve to the same directory again,
      whatever id a later call would mint: the run started with these
      keywords writes where the caller will look. */
  lemma ResolveAfterApply(guildHome: string, kw: map<string, string>, runId: string, laterId: string,
                          lookup: string -> Option<string>)
    requires ResolveRunDir(guildHome, kw, runId, lookup).Ok?
    ensures var dir := ResolveRunDir(guildHome, kw, runId, lookup).value;
      var kw' := if MintsRunDir(kw) then kw["run_dir" := dir] else kw;
      ResolveRunDir(guildHome, kw', laterId, lookup) == Ok(dir)
  {
  }

  /** Different relative run ids never share a fresh directory. */
  lemma FreshRunDirInjective(guildHome: string, id1: string, id2: string)
    requires !PyText.StartsWith(id1, "/") && !PyText.StartsWith(id2, "/")
    requires id1 != id2
    ensures FreshRunDir(guildHome, id1) != FreshRunDir(guildHome, id2)
  {
    if FreshRunDir(guildHome, id1) == FreshRunDir(guildHome, id2) {
      PyText.JoinInjective(PyText.Join(guildHome, "runs"), id1, id2);
    }
  }

  // ---- print_runs columns and ls -----------------------------------------

  /** The position of a column in the fixed order
      opspec, flags, label, status. */
  function ColumnRank(col: string): int {
    if col == "opspec" then 0
    else if col == "flags" then 1
    else if col == "label" then 2
    else if col == "status" then 3
    else 4
  }

  /** `_cols_for_print_runs` */
  function ColsForPrintRuns(flags: bool, labels: bool, status: bool): (cols: seq<string>)
    ensures |cols| > 0 && cols[0] == "opspec"
    ensures "flags" in cols <==> flags
    ensures "label" in cols <==> labels
    ensures "status" in cols <==> status
    ensures forall c :: c in cols ==> ColumnRank(c) < 4
    ensures forall i, j :: 0 <= i < j < |cols| ==> ColumnRank(cols[i]) < ColumnRank(cols[j])
  {
    ["opspec"]
    + (if flags then ["flags"] else [])
    + (if labels then ["label"] else [])
    + (if status then ["status"] else [])
  }

  /** Whether `ls` lists `path`: everything with `all`; under `sourcecode`
      only the copied source code; otherwise nothing under `.guild`. */
  predicate LsShows(path: string, all: bool, sourcecode: bool) {
    if all then true
    else if sourcecode then PyText.StartsWith(path, ".guild/sourcecode")
    else !PyText.StartsWith(path, ".guild")
  }

  /** The `ls` listing of the run's files `paths`, in their order. */
  function Ls(paths: seq<string>, all: bool, sourcecode: bool): (r: seq<string>)
    ensures |r| <= |paths|
    ensures forall p :: p in r <==> p in paths && LsShows(p, all, sourcecode)
  {
    if |paths| == 0 then []
    else
      var rest := Ls(paths[1..], all, sourcecode);
      assert forall p :: p in paths <==> p == paths[0] || p in paths[1..];
      if LsShows(paths[0], all, sourcecode) then [paths[0]] + rest else rest
  }

  /** `ls(run, all=True)` lists every file. */
  lemma {:induction false} LsAll(paths: seq<string>, sourcecode: bool)
    ensures Ls(paths, true, sourcecode) == paths
  {
    if |paths| > 0 {
      LsAll(paths[1..], sourcecode);
    }
  }

  /** The listing keeps the sorted order in which the files are found. */
  lemma {:induction false} LsSorted(paths: seq<string>, all: bool, sourcecode: bool)
    requires StrOrder.StrictlySorted(paths)
    ensures StrOrder.StrictlySorted(Ls(paths, all, sourcecode))
  {
    if |paths| > 0 {
      LsSorted(paths[1..], all, sourcecode);
      var rest := Ls(paths[1..], all, sourcecode);
      forall j | 0 <= j < |rest| ensures StrOrder.Less(paths[0], rest[j]) {
        assert rest[j] in paths[1..];
        var k :| 0 <= k < |paths[1..]| && paths[1..][k] == rest[j];
        assert paths[k + 1] == rest[j];
      }
      var r := Ls(paths, all, sourcecode);
      if LsShows(paths[0], all, sourcecode) {
        assert r == [paths[0]] + rest;
        forall i, j | 0 <= i < j < |r| ensures StrOrder.Less(r[i], r[j]) {
          assert r[j] == rest[j - 1];
          if i > 0 { assert r[i] == rest[i - 1]; }
        }
      } else {
        assert r == rest;
      }
    }
  }
}
