/** The values `yaml.load` produces for a guild model file, and the two Python
    operations the project code applies to them: `==` and `"%s" %`. */
module YamlData {
  import PyText

  /** A loaded YAML value. Mapping keys are strings. */
  datatype Value =
    | Null
    | Bool(b: bool)
    | Int(i: int)
    | Str(s: string)
    | List(items: seq<Value>)
    | Map(entries: map<string, Value>)

  /** `d.get(key, default)` */
  function Lookup(entries: map<string, Value>, key: string, default: Value): (r: Value)
    ensures key in entries ==> r == entries[key]
    ensures key !in entries ==> r == default
  {
    if key in entries then entries[key] else default
  }

  /** Python `==` between two loaded values: structural, except that `True`
      and `False` equal the integers 1 and 0, also inside lists and maps. */
  predicate PyEq(a: Value, b: Value)
    decreases a
  {
    match a
    case Bool(x) => b == a || (b.Int? && b.i == (if x then 1 else 0))
    case Int(n) => b == a || (b.Bool? && n == (if b.b then 1 else 0))
    case List(xs) =>
      b.List? && |xs| == |b.items| && forall i :: 0 <= i < |xs| ==> PyEq(xs[i], b.items[i])
    case Map(m) =>
      b.Map? && m.Keys == b.entries.Keys && forall k :: k in m ==> PyEq(m[k], b.entries[k])
    case _ => b == a
  }

  /** Every loaded value equals itself. */
  lemma {:induction false} PyEqReflexive(a: Value)
    ensures PyEq(a, a)
    decreases a
  {
    match a
    case List(xs) =>
      forall i | 0 <= i < |xs| ensures PyEq(xs[i], xs[i]) { PyEqReflexive(xs[i]); }
    case Map(m) =>
      forall k | k in m ensures PyEq(m[k], m[k]) { PyEqReflexive(m[k]); }
    case _ =>
  }

  /** `==` on loaded values is symmetric. */
  lemma {:induction false} PyEqSymmetric(a: Value, b: Value)
    requires PyEq(a, b)
    ensures PyEq(b, a)
    decreases a
  {
    match a
    case List(xs) =>
      forall i | 0 <= i < |xs| ensures PyEq(b.items[i], xs[i]) { PyEqSymmetric(xs[i], b.items[i]); }
    case Map(m) =>
      forall k | k in b.entries ensures PyEq(b.entries[k], m[k]) { PyEqSymmetric(m[k], b.entries[k]); }
    case _ =>
  }

  /** A string equals only itself: no other value is `==` to it. */
  lemma PyEqStr(a: Value, s: string)
    ensures PyEq(a, Str(s)) <==> a == Str(s)
  {
  }

  /** `"%s" % v` for scalar values; containers get a fixed placeholder. */
  function Display(v: Value): string {
    match v
    case Null => "None"
    case Bool(b) => if b then "True" else "False"
    case Int(i) => PyText.Decimal(i)
    case Str(s) => s
    case List(_) => "[...]"
    case Map(_) => "{...}"
  }
}
