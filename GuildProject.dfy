/** guild/project.py: a project is the list of models loaded from a model
    file (or offered by plugins); each model carries its operations, one per
    key of its `operations` mapping, sorted by name. Everything here is a
    value: the Python objects are never changed after construction. */
module GuildProject {
  import opened Wrappers
  import opened YamlData
  import PyText
  import StrOrder

  /** `ProjectFormatError` and `NoModels` are the module's own exceptions;
      `KeyError` comes from `Project[name]`; `AttributeError` is what Python
      raises when a model or operation entry is not a mapping. */
  datatype Error =
    | ProjectFormatError(path: string)
    | NoModels(path: string)
    | KeyError(key: Value)
    | AttributeError

  datatype Operation = Operation(
    modelName: Value,          // `op.model.name`
    name: string,
    data: map<string, Value>,
    description: Value,
    cmd: Value,
    flags: Value,
    disabledPlugins: Value)

  datatype Model = Model(
    data: map<string, Value>,
    name: Value,
    version: Value,
    description: Value,
    operations: seq<Operation>,
    flags: Value,
    disabledPlugins: Value)

  datatype Project = Project(data: seq<Value>, src: string, models: seq<Model>)

  /** The collaborators `from_dir` consults: the file system (`os.path.isfile`,
      `os.path.abspath`), `yaml.load` of a file, and the models all plugins
      offer for a location (`_try_from_plugin`'s loop). */
  datatype Host = Host(
    isFile: string -> bool,
    abspath: string -> string,
    load: string -> Value,
    pluginModels: string -> seq<Value>)

  // ---- operations ----------------------------------------------------------

  /** `_coerce_op_data`: a bare string stands for `{"cmd": s}`; anything else
      is kept as it is. */
  function CoerceOpData(data: Value): (r: Value)
    ensures data.Str? ==> r == Map(map["cmd" := data])
    ensures !data.Str? ==> r == data
  {
    if data.Str? then Map(map["cmd" := data]) else data
  }

  /** `Operation(model, name, data)`. The `.get` calls fail unless the coerced
      data is a mapping. */
  function OperationOf(modelName: Value, name: string, data: Value): (r: Result<Operation, Error>)
    ensures r.Ok? <==> (data.Str? || data.Map?)
    ensures r.Ok? ==> r.value.name == name && r.value.modelName == modelName
    ensures r.Ok? ==> var d := CoerceOpData(data).entries;
      && r.value.data == d
      && r.value.description == Lookup(d, "description", Null)
      && r.value.cmd == Lookup(d, "cmd", Null)
      && r.value.flags == Lookup(d, "flags", Map(map[]))
      && r.value.disabledPlugins == Lookup(d, "disabled-plugins", List([]))
    ensures r.Err? ==> r.error == AttributeError
  {
    var d := CoerceOpData(data);
    if d.Map? then
      Ok(Operation(modelName, name, d.entries,
                   Lookup(d.entries, "description", Null),
                   Lookup(d.entries, "cmd", Null),
                   Lookup(d.entries, "flags", Map(map[])),
                   Lookup(d.entries, "disabled-plugins", List([]))))
    else Err(AttributeError)
  }

  /** An operation written as a bare command string has that string as its
      `cmd` and the defaults for everything else. */
  lemma StringOperation(modelName: Value, name: string, s: string)
    ensures OperationOf(modelName, name, Str(s)) ==
      Ok(Operation(modelName, name, map["cmd" := Str(s)], Null, Str(s), Map(map[]), List([])))
  {
  }

  /** `Operation.full_name`: `"%s:%s" % (model.name, name)`. */
  function FullName(op: Operation): (r: string)
    ensures PyText.StartsWith(r, Display(op.modelName))
    ensures PyText.EndsWith(r, ":" + op.name)
    ensures |r| == |Display(op.modelName)| + 1 + |op.name|
  {
    Display(op.modelName) + ":" + op.name
  }

  lemma FullNameOfNamedModel(m: string, op: Operation)
    requires op.modelName == Str(m)
    ensures FullName(op) == m + ":" + op.name
  {
  }

  /** The operations for `keys`, in that order; the first failing entry fails. */
  function OpsFor(modelName: Value, keys: seq<string>, ops: map<string, Value>): Result<seq<Operation>, Error>
    requires forall i :: 0 <= i < |keys| ==> keys[i] in ops
  {
    if keys == [] then Ok([])
    else
      match OperationOf(modelName, keys[0], ops[keys[0]])
      case Err(e) => Err(e)
      case Ok(op) =>
        match OpsFor(modelName, keys[1..], ops)
        case Err(e) => Err(e)
        case Ok(rest) => Ok([op] + rest)
  }

  /** The operations load exactly when every entry does, one operation per
      key, named by it and built from its entry. */
  lemma {:induction false} OpsForSpec(modelName: Value, keys: seq<string>, ops: map<string, Value>)
    requires forall i :: 0 <= i < |keys| ==> keys[i] in ops
    ensures var r := OpsFor(modelName, keys, ops);
      && (r.Ok? <==> forall i :: 0 <= i < |keys| ==> OperationOf(modelName, keys[i], ops[keys[i]]).Ok?)
      && (r.Ok? ==> |r.value| == |keys|)
      && (r.Ok? ==> forall i :: 0 <= i < |keys| ==> Ok(r.value[i]) == OperationOf(modelName, keys[i], ops[keys[i]]))
      && (r.Ok? ==> forall i :: 0 <= i < |keys| ==> r.value[i].name == keys[i])
  {
    if keys != [] {
      OpsForSpec(modelName, keys[1..], ops);
      assert forall i :: 1 <= i < |keys| ==> keys[1..][i - 1] == keys[i];
    }
  }

  /** `_sorted_ops`: the operations of the mapping's keys in ascending order. */
  function SortedOps(modelName: Value, ops: map<string, Value>): Result<seq<Operation>, Error> {
    var keys := StrOrder.Sorted(ops.Keys);
    OpsFor(modelName, keys, ops)
  }

  /** `_sorted_ops` fails exactly when some entry is neither a command string
      nor a mapping. */
  lemma SortedOpsOk(modelName: Value, ops: map<string, Value>)
    ensures SortedOps(modelName, ops).Ok? <==> forall k :: k in ops ==> (ops[k].Str? || ops[k].Map?)
  {
    var keys := StrOrder.Sorted(ops.Keys);
    OpsForSpec(modelName, keys, ops);
    assert SortedOps(modelName, ops) == OpsFor(modelName, keys, ops);
    forall k | k in ops ensures exists i :: 0 <= i < |keys| && keys[i] == k {
      assert k in keys;
    }
  }

  /** `_sorted_ops` makes one operation per key of the mapping, in strictly
      ascending name order, each built from its key's entry. */
  lemma SortedOpsSpec(modelName: Value, ops: map<string, Value>, sorted: seq<Operation>)
    requires SortedOps(modelName, ops) == Ok(sorted)
    ensures |sorted| == |ops.Keys|
    ensures forall i, j :: 0 <= i < j < |sorted| ==> StrOrder.Less(sorted[i].name, sorted[j].name)
    ensures forall k :: k in ops <==> exists i :: 0 <= i < |sorted| && sorted[i].name == k
    ensures forall i :: 0 <= i < |sorted| ==>
      sorted[i].name in ops && Ok(sorted[i]) == OperationOf(modelName, sorted[i].name, ops[sorted[i].name])
  {
    var keys := StrOrder.Sorted(ops.Keys);
    OpsForSpec(modelName, keys, ops);
    assert OpsFor(modelName, keys, ops) == Ok(sorted);
    assert forall i :: 0 <= i < |sorted| ==> sorted[i].name == keys[i];
    forall k | k in ops ensures exists i :: 0 <= i < |sorted| && sorted[i].name == k {
      assert k in keys;
      var i :| 0 <= i < |keys| && keys[i] == k;
      assert sorted[i].name == k;
    }
  }

  // ---- models --------------------------------------------------------------

  /** `Model(project, data)`. */
  function ModelOf(data: Value): (r: Result<Model, Error>)
    ensures r.Ok? ==> data.Map? && r.value.data == data.entries
    ensures r.Ok? ==> r.value.name == Lookup(data.entries, "name", Null)
  {
    if !data.Map? then Err(AttributeError)
    else
      var d := data.entries;
      var name := Lookup(d, "name", Null);
      var opsData := Lookup(d, "operations", Map(map[]));
      if !opsData.Map? then Err(AttributeError)
      else
        match SortedOps(name, opsData.entries)
        case Err(e) => Err(e)
        case Ok(ops) =>
          Ok(Model(d, name, Lookup(d, "version", Null), Lookup(d, "description", Null), ops,
                   Lookup(d, "flags", Map(map[])), Lookup(d, "disabled-plugins", List([]))))
  }

  /** `Model.get_op`: the first operation with that name, or `None`. */
  function GetOp(ops: seq<Operation>, name: string): (r: Option<Operation>)
    ensures r.None? <==> forall i :: 0 <= i < |ops| ==> ops[i].name != name
    ensures r.Some? ==> exists i :: (0 <= i < |ops| && ops[i] == r.value
      && r.value.name == name && forall j :: 0 <= j < i ==> ops[j].name != name)
  {
    if ops == [] then None
    else if ops[0].name == name then Some(ops[0])
    else
      var r := GetOp(ops[1..], name);
      assert forall i :: 1 <= i < |ops| ==> ops[1..][i - 1] == ops[i];
      r
  }

  /** On a model's sorted operations, `get_op(n)` finds an operation exactly
      when `n` is a key of the operations mapping, and it is the operation
      built from that key's entry. */
  lemma GetOpOfSortedOps(modelName: Value, ops: map<string, Value>, sorted: seq<Operation>, n: string)
    requires SortedOps(modelName, ops) == Ok(sorted)
    ensures GetOp(sorted, n).Some? <==> n in ops
    ensures n in ops ==> Ok(GetOp(sorted, n).value) == OperationOf(modelName, n, ops[n])
  {
    SortedOpsSpec(modelName, ops, sorted);
    if n in ops {
      var i :| 0 <= i < |sorted| && sorted[i].name == n;
      var g := GetOp(sorted, n);
      var k :| 0 <= k < |sorted| && sorted[k] == g.value && g.value.name == n
        && forall j :: 0 <= j < k ==> sorted[j].name != n;
      assert Ok(sorted[k]) == OperationOf(modelName, sorted[k].name, ops[sorted[k].name]);
    }
  }

  /** The same for a model as `Model(project, data)` builds it. */
  lemma GetOpOfLoadedModel(data: Value, m: Model, n: string)
    requires ModelOf(data) == Ok(m)
    ensures data.Map? && Lookup(data.entries, "operations", Map(map[])).Map?
    ensures var ops := Lookup(data.entries, "operations", Map(map[])).entries;
      (GetOp(m.operations, n).Some? <==> n in ops)
      && (n in ops ==> Ok(GetOp(m.operations, n).value) == OperationOf(m.name, n, ops[n]))
  {
    var ops := Lookup(data.entries, "operations", Map(map[])).entries;
    GetOpOfSortedOps(m.name, ops, m.operations, n);
  }

  /** The `.get` calls of `Model(project, data)` and `_sorted_ops`'s `.keys()`
      fail unless the data and its `operations` entry are mappings; otherwise
      the model fails exactly when `_sorted_ops` does, and its operations are
      `_sorted_ops` of that entry. */
  lemma ModelOfSpec(data: Value)
    ensures ModelOf(data).Ok? <==>
      && data.Map? && Lookup(data.entries, "operations", Map(map[])).Map?
      && SortedOps(Lookup(data.entries, "name", Null), Lookup(data.entries, "operations", Map(map[])).entries).Ok?
    ensures !data.Map? || !Lookup(data.entries, "operations", Map(map[])).Map? ==> ModelOf(data) == Err(AttributeError)
    ensures ModelOf(data).Err? && data.Map? && Lookup(data.entries, "operations", Map(map[])).Map? ==>
      Err(ModelOf(data).error) == SortedOps(Lookup(data.entries, "name", Null), Lookup(data.entries, "operations", Map(map[])).entries)
    ensures ModelOf(data).Ok? ==> var m, d := ModelOf(data).value, data.entries;
      && m.data == d
      && m.name == Lookup(d, "name", Null)
      && m.version == Lookup(d, "version", Null)
      && m.description == Lookup(d, "description", Null)
      && SortedOps(m.name, Lookup(d, "operations", Map(map[])).entries) == Ok(m.operations)
      && m.flags == Lookup(d, "flags", Map(map[]))
      && m.disabledPlugins == Lookup(d, "disabled-plugins", List([]))
  {
  }

  /** A loaded model has one operation per key of its `operations` entry,
      in strictly ascending name order, each built from that key's entry. */
  lemma LoadedModelOps(data: Value, m: Model)
    requires ModelOf(data) == Ok(m)
    ensures data.Map? && Lookup(data.entries, "operations", Map(map[])).Map?
    ensures var ops := Lookup(data.entries, "operations", Map(map[])).entries;
      && |m.operations| == |ops.Keys|
      && (forall i, j :: 0 <= i < j < |m.operations| ==> StrOrder.Less(m.operations[i].name, m.operations[j].name))
      && (forall k :: k in ops <==> exists i :: 0 <= i < |m.operations| && m.operations[i].name == k)
      && (forall i :: 0 <= i < |m.operations| ==>
            (m.operations[i].name in ops
             && Ok(m.operations[i]) == OperationOf(m.name, m.operations[i].name, ops[m.operations[i].name])))
  {
    var ops := Lookup(data.entries, "operations", Map(map[])).entries;
    ModelOfSpec(data);
    SortedOpsSpec(m.name, ops, m.operations);
  }

  /** The models of a project, one per entry; the first failing entry fails. */
  function ModelsOf(data: seq<Value>): Result<seq<Model>, Error> {
    if data == [] then Ok([])
    else
      match ModelOf(data[0])
      case Err(e) => Err(e)
      case Ok(m) =>
        match ModelsOf(data[1..])
        case Err(e) => Err(e)
        case Ok(rest) => Ok([m] + rest)
  }

  /** The models load exactly when every entry does, one model per entry. */
  lemma {:induction false} ModelsOfSpec(data: seq<Value>)
    ensures ModelsOf(data).Ok? <==> forall i :: 0 <= i < |data| ==> ModelOf(data[i]).Ok?
    ensures ModelsOf(data).Ok? ==> |ModelsOf(data).value| == |data|
    ensures ModelsOf(data).Ok? ==> forall i :: 0 <= i < |data| ==> Ok(ModelsOf(data).value[i]) == ModelOf(data[i])
  {
    if data != [] {
      ModelsOfSpec(data[1..]);
      assert forall i :: 1 <= i < |data| ==> data[1..][i - 1] == data[i];
    }
  }

  /** The first failing entry's error is the project's. */
  lemma {:induction false} ModelsOfFirstError(data: seq<Value>, i: nat)
    requires i < |data| && ModelOf(data[i]).Err?
    requires forall j :: 0 <= j < i ==> ModelOf(data[j]).Ok?
    ensures ModelsOf(data) == Err(ModelOf(data[i]).error)
  {
    if i > 0 {
      var rest := data[1..];
      assert ModelOf(data[0]).Ok?;
      assert rest[i - 1] == data[i];
      forall j | 0 <= j < i - 1 ensures ModelOf(rest[j]).Ok? {
        assert rest[j] == data[j + 1];
      }
      ModelsOfFirstError(rest, i - 1);
    }
  }

  /** `Project(data, src)`. */
  function ProjectOf(data: seq<Value>, src: string): (r: Result<Project, Error>)
    ensures r.Ok? ==> r.value.src == src && r.value.data == data
  {
    match ModelsOf(data)
    case Err(e) => Err(e)
    case Ok(models) => Ok(Project(data, src, models))
  }

  /** A project holds one model per entry, each built from its entry. */
  lemma ProjectOfModels(data: seq<Value>, src: string)
    ensures ProjectOf(data, src).Ok? <==> forall i :: 0 <= i < |data| ==> ModelOf(data[i]).Ok?
    ensures ProjectOf(data, src).Ok? ==> |ProjectOf(data, src).value.models| == |data|
    ensures ProjectOf(data, src).Ok? ==>
      forall i :: 0 <= i < |data| ==> Ok(ProjectOf(data, src).value.models[i]) == ModelOf(data[i])
  {
    ModelsOfSpec(data);
  }

  // ---- lookups -------------------------------------------------------------

  /** The index of the first model named `name`, `|models|` when none is. */
  function FindModel(models: seq<Model>, name: Value): (i: nat)
    ensures i <= |models|
    ensures i < |models| ==> PyEq(models[i].name, name)
    ensures forall j :: 0 <= j < i ==> !PyEq(models[j].name, name)
  {
    if models == [] then 0
    else if PyEq(models[0].name, name) then 0
    else
      var i := FindModel(models[1..], name);
      assert forall j :: 1 <= j < 1 + i ==> models[j] == models[1..][j - 1];
      1 + i
  }

  /** `Project.get(name, default)`: the first model whose name equals `name`;
      `default` when none does. */
  function Get(models: seq<Model>, name: Value, default: Option<Model>): (r: Option<Model>)
    ensures FindModel(models, name) == |models| ==> r == default
    ensures FindModel(models, name) < |models| ==> r == Some(models[FindModel(models, name)])
  {
    if models == [] then default
    else if PyEq(models[0].name, name) then Some(models[0])
    else
      var r := Get(models[1..], name, default);
      assert FindModel(models, name) == 1 + FindModel(models[1..], name);
      r
  }

  /** `Project[name]`: the model `get` finds, or `KeyError` exactly when it finds none. */
  function GetItem(p: Project, name: Value): (r: Result<Model, Error>)
    ensures r.Err? <==> Get(p.models, name, None).None?
    ensures r.Err? ==> r.error == KeyError(name)
    ensures r.Ok? ==> Some(r.value) == Get(p.models, name, None)
  {
    match Get(p.models, name, None)
    case None => Err(KeyError(name))
    case Some(m) => Ok(m)
  }

  /** Without a default, `get` finds a model exactly when some model has that
      name, and what it finds is a model with that name before which no
      model has it. */
  lemma GetFindsFirstNamed(models: seq<Model>, name: Value)
    ensures Get(models, name, None).Some? <==> exists i :: 0 <= i < |models| && PyEq(models[i].name, name)
    ensures Get(models, name, None).Some? ==>
      exists i :: (0 <= i < |models| && models[i] == Get(models, name, None).value
        && PyEq(models[i].name, name) && forall j :: 0 <= j < i ==> !PyEq(models[j].name, name))
  {
    var k := FindModel(models, name);
    if k < |models| {
      assert models[k] == Get(models, name, None).value;
    }
  }

  /** `Project.default_model`: the first model, `None` for a project without models. */
  function DefaultModel(p: Project): (r: Option<Model>)
    ensures r.None? <==> p.models == []
    ensures r.Some? ==> r.value == p.models[0]
  {
    if p.models != [] then Some(p.models[0]) else None
  }

  // ---- loading -------------------------------------------------------------

  /** `_load_modelfile`'s shape check on what `yaml.load` returned. */
  function LoadModelfile(path: string, data: Value): (r: Result<seq<Value>, Error>)
    ensures data.List? ==> r == Ok(data.items)
    ensures data.Map? ==> r == Ok([data])
    ensures !data.List? && !data.Map? ==> r == Err(ProjectFormatError(path))
  {
    match data
    case List(items) => Ok(items)
    case Map(_) => Ok([data])
    case _ => Err(ProjectFormatError(path))
  }

  /** `from_file(src)` */
  function FromFile(src: string, host: Host): (r: Result<Project, Error>)
    ensures r.Ok? ==> r.value.src == src
  {
    match LoadModelfile(src, host.load(src))
    case Err(e) => Err(e)
    case Ok(data) => ProjectOf(data, src)
  }

  function ModelFile(path: string, name: string, host: Host): string {
    host.abspath(PyText.Join(path, name))
  }

  /** `name` is a file under `path`. */
  predicate IsModelFile(path: string, name: string, host: Host) {
    host.isFile(ModelFile(path, name, host))
  }

  /** The index of the first of `filenames` that is a file under `path`,
      `|filenames|` when none is. */
  function FirstFile(path: string, filenames: seq<string>, host: Host): (i: nat)
    ensures i <= |filenames|
    ensures i < |filenames| ==> IsModelFile(path, filenames[i], host)
    ensures forall j :: 0 <= j < i ==> !IsModelFile(path, filenames[j], host)
  {
    if filenames == [] then 0
    else if IsModelFile(path, filenames[0], host) then 0
    else
      var rest := filenames[1..];
      var i := FirstFile(path, rest, host);
      assert forall j :: 1 <= j <= i ==> filenames[j] == rest[j - 1];
      1 + i
  }

  /** `_try_from_dir_file`: the project of the first of `filenames` that is a
      file under `path`; `None` when none is. */
  function TryFromDirFile(path: string, filenames: seq<string>, host: Host): (r: Option<Result<Project, Error>>)
    ensures r.None? <==> FirstFile(path, filenames, host) == |filenames|
    ensures var i := FirstFile(path, filenames, host);
      i < |filenames| ==> r == Some(FromFile(ModelFile(path, filenames[i], host), host))
  {
    if filenames == [] then None
    else
      var file := ModelFile(path, filenames[0], host);
      if host.isFile(file) then Some(FromFile(file, host))
      else
        var i := FirstFile(path, filenames[1..], host);
        assert FirstFile(path, filenames, host) == 1 + i;
        assert i < |filenames| - 1 ==> filenames[1..][i] == filenames[1 + i];
        TryFromDirFile(path, filenames[1..], host)
  }

  /** `_try_from_plugin`: a generated project when the plugins offer any model. */
  function TryFromPlugin(path: string, host: Host): (r: Option<Result<Project, Error>>)
    ensures r.None? <==> host.pluginModels(path) == []
    ensures r.Some? ==> r.value == ProjectOf(host.pluginModels(path), PyText.Join(path, "__generated__"))
  {
    var data := host.pluginModels(path);
    if data != [] then Some(ProjectOf(data, PyText.Join(path, "__generated__"))) else None
  }

  /** The model files `from_dir` looks for when it is given none. */
  const DEFAULT_MODEL_FILES: seq<string> := ["MODELS", "MODEL"]

  /** `from_dir(path, filenames, use_plugins)`: the first listed model file,
      else the plugins' models when plugins are used, else `NoModels`. */
  function FromDir(path: string, filenames: seq<string>, usePlugins: bool, host: Host): (r: Result<Project, Error>)
    ensures var i := FirstFile(path, filenames, host);
      i < |filenames| ==> r == FromFile(ModelFile(path, filenames[i], host), host)
    ensures FirstFile(path, filenames, host) == |filenames| ==>
      r == if usePlugins && host.pluginModels(path) != []
           then ProjectOf(host.pluginModels(path), PyText.Join(path, "__generated__"))
           else Err(NoModels(path))
  {
    match TryFromDirFile(path, filenames, host)
    case Some(p) => p
    case None =>
      match (if usePlugins then TryFromPlugin(path, host) else None)
      case Some(p) => p
      case None => Err(NoModels(path))
  }

  /** `from_dir(path)` with its default arguments reads `MODELS` when it is
      a file, else `MODEL`, else asks the plugins, else fails with `NoModels`. */
  lemma FromDirDefaults(path: string, host: Host)
    ensures var models := ModelFile(path, "MODELS", host);
      host.isFile(models) ==>
        FromDir(path, DEFAULT_MODEL_FILES, true, host) == FromFile(models, host)
    ensures var models, model := ModelFile(path, "MODELS", host), ModelFile(path, "MODEL", host);
      !host.isFile(models) && host.isFile(model) ==>
        FromDir(path, DEFAULT_MODEL_FILES, true, host) == FromFile(model, host)
    ensures var models, model := ModelFile(path, "MODELS", host), ModelFile(path, "MODEL", host);
      !host.isFile(models) && !host.isFile(model) ==>
        FromDir(path, DEFAULT_MODEL_FILES, true, host) ==
          if host.pluginModels(path) != []
          then ProjectOf(host.pluginModels(path), PyText.Join(path, "__generated__"))
          else Err(NoModels(path))
  {
  }
}
