/** The scoped guards of the test harness: `Env`, `SysPath`, `Chdir` and
    `UserConfig`. Each one saves part of the process state on entry, installs
    its own value, and puts something back on exit. */
module Guards {
  import opened Wrappers
  import YamlData
  import PyText

  /** What a `UserConfig` guard installs: a mock whose `read()` returns `data`. */
  datatype Config = MockConfig(data: map<string, YamlData.Value>)

  /** The process-wide cells the guards change: `os.environ`, `sys.path`,
      the working directory and `configlib._user_config` (`None` is the
      "re-read from disk" state). */
  class Process {
    var env: map<string, string>
    var sysPath: seq<string>
    var cwd: string
    var userConfig: Option<Config>

    constructor (env: map<string, string>, sysPath: seq<string>, cwd: string)
      ensures this.env == env && this.sysPath == sysPath && this.cwd == cwd
      ensures userConfig == None
    {
      this.env := env;
      this.sysPath := sysPath;
      this.cwd := cwd;
      userConfig := None;
    }
  }

  // ---- Env ---------------------------------------------------------------

  /** The items of a dict: no name occurs twice. */
  predicate NamesDistinct(vals: seq<(string, string)>) {
    forall i, j :: 0 <= i < j < |vals| ==> vals[i].0 != vals[j].0
  }

  function NameSet(vals: seq<(string, string)>): set<string> {
    set i | 0 <= i < |vals| :: vals[i].0
  }

  /** `env` after `env[name] = val` for each item in order. */
  function Overlay(env: map<string, string>, vals: seq<(string, string)>): map<string, string> {
    if |vals| == 0 then env
    else Overlay(env, vals[..|vals| - 1])[vals[|vals| - 1].0 := vals[|vals| - 1].1]
  }

  /** One revert action: `del env[name]` ignoring a missing key, or
      `env[name] = value`. */
  datatype RevertOp = Delete(name: string) | Restore(name: string, value: string)

  function Apply(env: map<string, string>, op: RevertOp): map<string, string> {
    match op
    case Delete(n) => env - {n}
    case Restore(n, v) => env[n := v]
  }

  /** Runs the revert actions in order. */
  function Replay(env: map<string, string>, ops: seq<RevertOp>): map<string, string>
    decreases |ops|
  {
    if |ops| == 0 then env else Replay(Apply(env, ops[0]), ops[1..])
  }

  /** The revert action that undoes a later `env[n] = ...`. */
  function RevertOpFor(env: map<string, string>, n: string): RevertOp {
    if n in env then Restore(n, env[n]) else Delete(n)
  }

  /** The revert actions `__enter__` records for `vals` over `env`: one per
      item, in item order, remembering whether and how the name was bound. */
  function RevertOpsFor(env: map<string, string>, vals: seq<(string, string)>): (r: seq<RevertOp>)
    ensures |r| == |vals|
    ensures forall i :: 0 <= i < |vals| ==> r[i] == RevertOpFor(env, vals[i].0)
  {
    if |vals| == 0 then []
    else RevertOpsFor(env, vals[..|vals| - 1]) + [RevertOpFor(env, vals[|vals| - 1].0)]
  }

  class Env {
    const vals: seq<(string, string)>
    var revertOps: seq<RevertOp>

    constructor (vals: seq<(string, string)>)
      requires NamesDistinct(vals)
      ensures this.vals == vals && revertOps == []
    {
      this.vals := vals;
      revertOps := [];
    }

    /** `__enter__`: binds every name to its value and appends one revert
        action per name to the list (the list is never cleared). */
    method Enter(p: Process)
      requires NamesDistinct(vals)
      modifies this`revertOps, p`env
      ensures p.env == Overlay(old(p.env), vals)
      ensures revertOps == old(revertOps) + RevertOpsFor(old(p.env), vals)
    {
      var i := 0;
      while i < |vals|
        invariant 0 <= i <= |vals|
        invariant p.env == Overlay(old(p.env), vals[..i])
        invariant revertOps == old(revertOps) + RevertOpsFor(old(p.env), vals[..i])
      {
        var name, val := vals[i].0, vals[i].1;
        assert vals[..i + 1][..i] == vals[..i];
        assert name !in NameSet(vals[..i]) by {
          forall j | 0 <= j < i ensures vals[..i][j].0 != name {
            assert vals[..i][j] == vals[j];
          }
        }
        OverlayOutside(old(p.env), vals[..i], name);
        if name in p.env {
          var cur := p.env[name];
          p.env := p.env - {name};
          revertOps := revertOps + [Restore(name, cur)];
        } else {
          revertOps := revertOps + [Delete(name)];
        }
        p.env := p.env[name := val];
        i := i + 1;
      }
      assert vals[..i] == vals;
    }

    /** `__exit__`: runs every recorded revert action, oldest first. */
    method Exit(p: Process)
      modifies p`env
      ensures p.env == Replay(old(p.env), revertOps)
    {
      var i := 0;
      while i < |revertOps|
        invariant 0 <= i <= |revertOps|
        invariant Replay(p.env, revertOps[i..]) == Replay(old(p.env), revertOps)
      {
        assert revertOps[i..][1..] == revertOps[i + 1..];
        p.env := Apply(p.env, revertOps[i]);
        i := i + 1;
      }
    }
  }

  lemma {:induction false} ReplayAppend(env: map<string, string>, ops: seq<RevertOp>, op: RevertOp)
    ensures Replay(env, ops + [op]) == Apply(Replay(env, ops), op)
    decreases |ops|
  {
    if |ops| > 0 {
      assert (ops + [op])[1..] == ops[1..] + [op];
      ReplayAppend(Apply(env, ops[0]), ops[1..], op);
    }
  }

  /** Setting the items of `vals` leaves every other name as it was. */
  lemma {:induction false} OverlayOutside(env: map<string, string>, vals: seq<(string, string)>, k: string)
    requires k !in NameSet(vals)
    ensures k in Overlay(env, vals) <==> k in env
    ensures k in env ==> Overlay(env, vals)[k] == env[k]
  {
    if |vals| > 0 {
      var init := vals[..|vals| - 1];
      assert k !in NameSet(init) by {
        forall j | 0 <= j < |init| ensures init[j].0 != k {
          assert init[j] == vals[j];
        }
      }
      OverlayOutside(env, init, k);
    }
  }

  /** Revert actions for other names carry an update of `n` through. */
  lemma {:induction false} ReplayUntouched(env: map<string, string>, ops: seq<RevertOp>, n: string, v: string)
    requires forall i :: 0 <= i < |ops| ==> ops[i].name != n
    ensures Replay(env[n := v], ops) == Replay(env, ops)[n := v]
    decreases |ops|
  {
    if |ops| > 0 {
      assert Apply(env[n := v], ops[0]) == Apply(env, ops[0])[n := v];
      ReplayUntouched(Apply(env, ops[0]), ops[1..], n, v);
    }
  }

  /** Entering and then leaving an `Env` scope restores the environment
      exactly: a bound name gets its old value back and an unbound name is
      removed again. */
  lemma {:induction false} EnvRoundTrip(env: map<string, string>, vals: seq<(string, string)>)
    requires NamesDistinct(vals)
    ensures Replay(Overlay(env, vals), RevertOpsFor(env, vals)) == env
  {
    if |vals| > 0 {
      var init := vals[..|vals| - 1];
      var n, v := vals[|vals| - 1].0, vals[|vals| - 1].1;
      var ops := RevertOpsFor(env, init);
      var op := if n in env then Restore(n, env[n]) else Delete(n);
      assert RevertOpsFor(env, vals) == ops + [op];
      assert forall i :: 0 <= i < |ops| ==> ops[i].name != n by {
        forall i | 0 <= i < |ops| ensures ops[i].name != n {
          assert ops[i].name == init[i].0 == vals[i].0;
        }
      }
      ReplayAppend(Overlay(env, init)[n := v], ops, op);
      ReplayUntouched(Overlay(env, init), ops, n, v);
      EnvRoundTrip(env, init);
      assert Replay(Overlay(env, init)[n := v], ops) == env[n := v];
      if n in env {
        assert env[n := v][n := env[n]] == env;
      } else {
        assert env[n := v] - {n} == env;
      }
    }
  }

  /** Inside the scope every name in `vals` holds its given value. */
  lemma {:induction false} EnvInScope(env: map<string, string>, vals: seq<(string, string)>, i: nat)
    requires NamesDistinct(vals) && i < |vals|
    ensures vals[i].0 in Overlay(env, vals) && Overlay(env, vals)[vals[i].0] == vals[i].1
  {
    var init := vals[..|vals| - 1];
    if i < |vals| - 1 {
      assert NamesDistinct(init);
      assert init[i] == vals[i];
      EnvInScope(env, init, i);
    }
  }

  /** The revert actions touch only the names they were recorded for. */
  lemma {:induction false} ReplayOutside(env: map<string, string>, ops: seq<RevertOp>, k: string)
    requires forall i :: 0 <= i < |ops| ==> ops[i].name != k
    ensures k in Replay(env, ops) <==> k in env
    ensures k in env ==> Replay(env, ops)[k] == env[k]
    decreases |ops|
  {
    if |ops| > 0 {
      ReplayOutside(Apply(env, ops[0]), ops[1..], k);
    }
  }

  /** A variable not named in `vals` is left alone by the whole scope: by
      entry, and by the revert actions that entry records. */
  lemma EnvOthersUntouched(env: map<string, string>, vals: seq<(string, string)>, k: string)
    requires k !in NameSet(vals)
    ensures k in Overlay(env, vals) <==> k in env
    ensures k in env ==> Overlay(env, vals)[k] == env[k]
    ensures var ops := RevertOpsFor(env, vals);
      forall e: map<string, string> :: (k in Replay(e, ops) <==> k in e)
        && (k in e ==> Replay(e, ops)[k] == e[k])
  {
    OverlayOutside(env, vals, k);
    var ops := RevertOpsFor(env, vals);
    assert forall i :: 0 <= i < |ops| ==> ops[i].name != k by {
      forall i | 0 <= i < |ops| ensures ops[i].name != k {
        assert ops[i].name == vals[i].0;
      }
    }
    forall e: map<string, string>
      ensures (k in Replay(e, ops) <==> k in e) && (k in e ==> Replay(e, ops)[k] == e[k])
    {
      ReplayOutside(e, ops, k);
    }
  }

  /** A `with Env(vals):` block around code that leaves the environment
      alone: afterwards the environment is what it was before. */
  method EnvScope(p: Process, vals: seq<(string, string)>)
    requires NamesDistinct(vals)
    modifies p`env
    ensures p.env == old(p.env)
  {
    var guard := new Env(vals);
    guard.Enter(p);
    assert guard.revertOps == RevertOpsFor(old(p.env), vals);
    EnvRoundTrip(old(p.env), vals);
    guard.Exit(p);
  }

  // ---- SysPath -----------------------------------------------------------

  /** A list argument as it contributes to `prepend + path + append`: absent
      (`None`) and empty both contribute nothing. */
  function OrEmpty(x: Option<seq<string>>): (r: seq<string>)
    ensures x.Some? ==> r == x.value
    ensures x.None? ==> r == []
  {
    if x.Some? then x.value else []
  }

  class SysPath {
    const sysPath: seq<string>
    var saved: Option<seq<string>>

    /** `__init__`: the list to install is `prepend + base + append`, where the
        base is `path` when given (even an empty list) and the current
        `sys.path` otherwise. */
    constructor (p: Process, path: Option<seq<string>>, prepend: Option<seq<string>>,
                 append: Option<seq<string>>)
      ensures sysPath == OrEmpty(prepend) + (if path.Some? then path.value else p.sysPath) + OrEmpty(append)
      ensures saved == None
    {
      var s := if path.Some? then path.value else p.sysPath;
      if prepend.Some? && prepend.value != [] {
        s := prepend.value + s;
      }
      if append.Some? && append.value != [] {
        s := s + append.value;
      }
      sysPath := s;
      saved := None;
    }

    /** `__enter__` */
    method Enter(p: Process)
      modifies this`saved, p`sysPath
      ensures saved == Some(old(p.sysPath)) && p.sysPath == sysPath
    {
      saved := Some(p.sysPath);
      p.sysPath := sysPath;
    }

    /** `__exit__`: fails its assertion when the guard was never entered, and
        otherwise puts back the list seen at entry. */
    method Exit(p: Process) returns (ok: bool)
      modifies p`sysPath
      ensures ok <==> saved.Some?
      ensures ok ==> p.sysPath == saved.value
      ensures !ok ==> p.sysPath == old(p.sysPath)
    {
      ok := saved.Some?;
      if ok {
        p.sysPath := saved.value;
      }
    }
  }

  /** A `with SysPath(...)` block: inside it `sys.path` is the installed
      list, after it the list is what it was before. */
  method SysPathScope(p: Process, path: Option<seq<string>>, prepend: Option<seq<string>>,
                      append: Option<seq<string>>) returns (inside: seq<string>)
    modifies p`sysPath
    ensures inside == OrEmpty(prepend) + (if path.Some? then path.value else old(p.sysPath)) + OrEmpty(append)
    ensures p.sysPath == old(p.sysPath)
  {
    var guard := new SysPath(p, path, prepend, append);
    guard.Enter(p);
    inside := p.sysPath;
    var ok := guard.Exit(p);
  }

  // ---- Chdir -------------------------------------------------------------

  class Chdir {
    const path: string
    var saved: Option<string>

    constructor (path: string)
      ensures this.path == path && saved == None
    {
      this.path := path;
      saved := None;
    }

    /** `__enter__`: remembers the working directory, then changes to `path`,
        which a relative `path` reaches from the old directory. */
    method Enter(p: Process)
      modifies this`saved, p`cwd
      ensures saved == Some(old(p.cwd)) && p.cwd == PyText.Join(old(p.cwd), path)
    {
      saved := Some(p.cwd);
      p.cwd := PyText.Join(p.cwd, path);
    }

    /** `__exit__`: fails its assertion when never entered, otherwise changes
        back to the remembered directory. */
    method Exit(p: Process) returns (ok: bool)
      modifies p`cwd
      ensures ok <==> saved.Some?
      ensures ok ==> p.cwd == saved.value
      ensures !ok ==> p.cwd == old(p.cwd)
    {
      ok := saved.Some?;
      if ok {
        p.cwd := saved.value;
      }
    }
  }

  /** A `with Chdir(path)` block runs in `path`, taken from the directory it
      starts in, and ends where it started. */
  method ChdirScope(p: Process, path: string) returns (inside: string)
    modifies p`cwd
    ensures inside == PyText.Join(old(p.cwd), path) && p.cwd == old(p.cwd)
  {
    var guard := new Chdir(path);
    guard.Enter(p);
    inside := p.cwd;
    var ok := guard.Exit(p);
  }

  // ---- UserConfig --------------------------------------------------------

  class UserConfig {
    const config: Config

    constructor (data: map<string, YamlData.Value>)
      ensures config == MockConfig(data)
    {
      config := MockConfig(data);
    }

    /** `__enter__` installs the mock configuration. */
    method Enter(p: Process)
      modifies p`userConfig
      ensures p.userConfig == Some(config)
    {
      p.userConfig := Some(config);
    }

    /** `__exit__` does not restore the earlier configuration: it resets the
        cell to `None`, so that the next read goes back to the file. */
    method Exit(p: Process)
      modifies p`userConfig
      ensures p.userConfig == None
    {
      p.userConfig := None;
    }
  }

  /** A `with UserConfig(data)` block sees the mock and leaves the cell reset,
      whatever it held before. */
  method UserConfigScope(p: Process, data: map<string, YamlData.Value>) returns (inside: Option<Config>)
    modifies p`userConfig
    ensures inside == Some(MockConfig(data)) && p.userConfig == None
  {
    var guard := new UserConfig(data);
    guard.Enter(p);
    inside := p.userConfig;
    guard.Exit(p);
  }
}
