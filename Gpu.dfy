/** guild/plugins/gpu.py: one CSV row of `nvidia-smi --query-gpu` output,
    with the columns in `STATS` order, becomes nine `system/gpu/<index>/<name>`
    stats; the stats of all rows are merged into one dictionary. */
module Gpu {
  import opened Wrappers
  import PyText

  /** The Python exceptions the row parser can raise: a failed `assert`, a
      failed `int()`, a row with too few columns, and `None - int`. */
  datatype GpuError = AssertionError | ValueError | IndexError | TypeError

  /** A stat value: `None`, an `int`, or a `float` from a caller-supplied parser. */
  datatype Stat = NoneStat | IntStat(n: int) | FloatStat(x: real)

  /** A parser for each kind of column. `_calc_gpu_stats` always uses
      `Standard`; the row lemmas hold for any parsers. */
  datatype Parsers = Parsers(
    bytes: string -> Result<int, GpuError>,
    pstate: string -> Result<int, GpuError>,
    integer: string -> Result<int, GpuError>,
    percent: string -> Result<real, GpuError>,
    watts: string -> Result<real, GpuError>)

  /** The `--query-gpu` fields, in column order. */
  const STATS: seq<string> := [
    "index", "fan.speed", "pstate", "memory.total", "memory.used",
    "utilization.gpu", "utilization.memory", "temperature.gpu", "power.draw"]

  const NOT_SUPPORTED: string := "[Not Supported]"

  const MIB: nat := 1024 * 1024

  /** `_parse_raw(raw, parser)`: the sentinel `[Not Supported]` is `None`;
      any other field is handed to `parser` once stripped, and what the
      parser returns or raises is the result. */
  function ParseRaw<T>(raw: string, parser: string -> Result<T, GpuError>): (r: Result<Option<T>, GpuError>)
    ensures r == Ok(None) <==> PyText.Strip(raw) == NOT_SUPPORTED
    ensures r.Ok? && r.value.Some? ==> parser(PyText.Strip(raw)) == Ok(r.value.value)
    ensures r.Err? ==> PyText.Strip(raw) != NOT_SUPPORTED && parser(PyText.Strip(raw)) == Err(r.error)
  {
    var stripped := PyText.Strip(raw);
    if stripped == NOT_SUPPORTED then Ok(None)
    else
      match parser(stripped)
      case Ok(v) => Ok(Some(v))
      case Err(e) => Err(e)
  }

  /** CSV padding around a field never changes how it parses. */
  lemma ParseRawPadded<T>(a: string, raw: string, b: string, parser: string -> Result<T, GpuError>)
    requires PyText.AllSpace(a) && PyText.AllSpace(b)
    ensures ParseRaw(a + raw + b, parser) == ParseRaw(raw, parser)
  {
    PyText.StripPadded(a, raw, b);
  }

  /** `_parse_bytes`: `"N MiB"` is N mebibytes, in bytes. */
  function ParseBytes(val: string): (r: Result<int, GpuError>)
    ensures !PyText.EndsWith(val, " MiB") ==> r == Err(AssertionError)
    ensures r.Ok? ==> r.value % MIB == 0
  {
    if !PyText.EndsWith(val, " MiB") then Err(AssertionError)
    else
      match PyText.ParseInt(val[..|val| - 4])
      case None => Err(ValueError)
      case Some(n) => assert (n * MIB) % MIB == 0; Ok(n * MIB)
  }

  lemma ParseBytesOfMiB(n: int)
    ensures ParseBytes(PyText.Decimal(n) + " MiB") == Ok(n * MIB)
  {
    var s := PyText.Decimal(n) + " MiB";
    assert s[..|s| - 4] == PyText.Decimal(n);
    PyText.ParseIntDecimal(n);
  }

  /** With the suffix in place, the value is `int()` of what precedes it,
      in mebibytes; when `int()` fails, so does the parse. */
  lemma ParseBytesValue(val: string)
    requires PyText.EndsWith(val, " MiB")
    ensures var p := PyText.ParseInt(val[..|val| - 4]);
      (p.None? ==> ParseBytes(val) == Err(ValueError)) && (p.Some? ==> ParseBytes(val) == Ok(p.value * MIB))
  {
  }

  /** `_parse_pstate`: `"Pn"` is performance state n. */
  function ParsePstate(val: string): (r: Result<int, GpuError>)
    ensures !PyText.StartsWith(val, "P") ==> r == Err(AssertionError)
    ensures r.Ok? ==> PyText.StartsWith(val, "P") && PyText.ParseInt(val[1..]) == Some(r.value)
  {
    if !PyText.StartsWith(val, "P") then Err(AssertionError)
    else
      match PyText.ParseInt(val[1..])
      case None => Err(ValueError)
      case Some(n) => Ok(n)
  }

  lemma ParsePstateOfState(n: int)
    ensures ParsePstate("P" + PyText.Decimal(n)) == Ok(n)
  {
    var s := "P" + PyText.Decimal(n);
    assert s[1..] == PyText.Decimal(n);
    PyText.ParseIntDecimal(n);
  }

  /** With the leading `P` in place, the value is `int()` of the rest;
      when `int()` fails, so does the parse. */
  lemma ParsePstateValue(val: string)
    requires PyText.StartsWith(val, "P")
    ensures var p := PyText.ParseInt(val[1..]);
      (p.None? ==> ParsePstate(val) == Err(ValueError)) && (p.Some? ==> ParsePstate(val) == Ok(p.value))
  {
  }

  /** `_parse_int` */
  function ParseIntField(val: string): (r: Result<int, GpuError>)
    ensures r.Ok? <==> PyText.ParseInt(val).Some?
    ensures r.Ok? ==> PyText.ParseInt(val) == Some(r.value)
    ensures r.Err? ==> r.error == ValueError
  {
    match PyText.ParseInt(val)
    case None => Err(ValueError)
    case Some(n) => Ok(n)
  }

  /** `_gpu_val_key(index, name)` */
  function GpuValKey(index: string, name: string): (r: string)
  {
    "system/gpu/" + index + "/" + name
  }

  /** Keys of one GPU differ exactly when their stat names differ. */
  lemma GpuValKeyInjective(index: string, a: string, b: string)
    requires GpuValKey(index, a) == GpuValKey(index, b)
    ensures a == b
  {
    var p := "system/gpu/" + index + "/";
    assert GpuValKey(index, a) == p + a && GpuValKey(index, b) == p + b;
    assert a == (p + a)[|p|..];
    assert b == (p + b)[|p|..];
  }

  /** The parsers `_calc_gpu_stats` hands to `_parse_raw`; `_parse_percent`
      and `_parse_watts` parse floating point numbers and are supplied. */
  function Standard(percent: string -> Result<real, GpuError>, watts: string -> Result<real, GpuError>): Parsers {
    Parsers(ParseBytes, ParsePstate, ParseIntField, percent, watts)
  }

  /** How a column is parsed: the parser `_calc_gpu_stats` hands to `_parse_raw`. */
  datatype FieldKind = Bytes | Pstate | Percent | Integer | Watts

  /** `_parse_raw(raw, <the parser of kind>)`, as a stat value. */
  function ParseField(raw: string, kind: FieldKind, ps: Parsers): (r: Result<Stat, GpuError>)
  {
    match kind
    case Bytes => var v :- ParseRaw(raw, ps.bytes); Ok(IntOf(v))
    case Pstate => var v :- ParseRaw(raw, ps.pstate); Ok(IntOf(v))
    case Integer => var v :- ParseRaw(raw, ps.integer); Ok(IntOf(v))
    case Percent => var v :- ParseRaw(raw, ps.percent); Ok(RealOf(v))
    case Watts => var v :- ParseRaw(raw, ps.watts); Ok(RealOf(v))
  }

  /** A field is `None` exactly when it is the `[Not Supported]` sentinel,
      and a parsed value keeps the parser's type. */
  lemma ParseFieldValue(raw: string, kind: FieldKind, ps: Parsers)
    ensures ParseField(raw, kind, ps) == Ok(NoneStat) <==> PyText.Strip(raw) == NOT_SUPPORTED
    ensures ParseField(raw, kind, ps).Ok? && kind in {Bytes, Pstate, Integer} ==> !ParseField(raw, kind, ps).value.FloatStat?
    ensures ParseField(raw, kind, ps).Ok? && kind in {Percent, Watts} ==> !ParseField(raw, kind, ps).value.IntStat?
  {
  }

  function IntOf(v: Option<int>): Stat {
    match v case None => NoneStat case Some(n) => IntStat(n)
  }

  function RealOf(v: Option<real>): Stat {
    match v case None => NoneStat case Some(x) => FloatStat(x)
  }

  /** `mem_total - mem_used`: defined on two integers; `None` on either side
      raises `TypeError`. */
  function MemFree(total: Stat, used: Stat): (r: Result<int, GpuError>)
    ensures r.Ok? <==> total.IntStat? && used.IntStat?
    ensures r.Ok? ==> r.value + used.n == total.n
    ensures r.Err? ==> r.error == TypeError
  {
    if total.IntStat? && used.IntStat? then Ok(total.n - used.n) else Err(TypeError)
  }

  /** The values `_calc_gpu_stats` computes from one row before it builds
      the dictionary. */
  datatype Row = Row(
    index: string,
    fanspeed: Stat, pstate: Stat, memTotal: Stat, memUsed: Stat, memFree: int,
    memUtil: Stat, util: Stat, temp: Stat, powerdraw: Stat)

  /** `row` holds what the columns of `raw` parse to: the index is column 0,
      every other field is its column parsed the field's way, and both memory
      figures are integers, `mem_free` being their difference. */
  predicate RowReadFrom(raw: seq<string>, ps: Parsers, row: Row) {
    && |raw| >= |STATS| && row.index == raw[0]
    && ColumnsReadFrom(raw, ps, row)
    && MemFreeOf(row)
  }

  /** Both memory figures are integers and `mem_free` is their difference. */
  predicate MemFreeOf(row: Row) {
    row.memTotal.IntStat? && row.memUsed.IntStat? && row.memFree == row.memTotal.n - row.memUsed.n
  }

  /** Every field but the index and `mem_free` is its column parsed the
      field's way. */
  predicate ColumnsReadFrom(raw: seq<string>, ps: Parsers, row: Row)
    requires |raw| >= |STATS|
  {
    && Ok(row.fanspeed) == ParseField(raw[1], Percent, ps)
    && Ok(row.pstate) == ParseField(raw[2], Pstate, ps)
    && Ok(row.memTotal) == ParseField(raw[3], Bytes, ps)
    && Ok(row.memUsed) == ParseField(raw[4], Bytes, ps)
    && Ok(row.memUtil) == ParseField(raw[6], Percent, ps)
    && Ok(row.util) == ParseField(raw[5], Percent, ps)
    && Ok(row.temp) == ParseField(raw[7], Integer, ps)
    && Ok(row.powerdraw) == ParseField(raw[8], Watts, ps)
  }

  /** The first half of `_calc_gpu_stats(raw)`: every field, evaluated in the
      order Python does (the index, memory total and used, then the list
      entries left to right), so the first exception is the one raised; a
      row too short for an access raises `IndexError` there. */
  function ParseRow(raw: seq<string>, ps: Parsers): (r: Result<Row, GpuError>)
    ensures r.Ok? ==> RowReadFrom(raw, ps, r.value)
    ensures |raw| < 4 ==> r == Err(IndexError)
  {
    if |raw| <= 0 then Err(IndexError) else
    var index := raw[0];
    if |raw| <= 3 then Err(IndexError) else
    var memTotal :- ParseField(raw[3], Bytes, ps);
    if |raw| <= 4 then Err(IndexError) else
    var memUsed :- ParseField(raw[4], Bytes, ps);
    var fanspeed :- ParseField(raw[1], Percent, ps);
    var pstate :- ParseField(raw[2], Pstate, ps);
    var memFree :- MemFree(memTotal, memUsed);
    if |raw| <= 6 then Err(IndexError) else
    var memUtil :- ParseField(raw[6], Percent, ps);
    var util :- ParseField(raw[5], Percent, ps);
    if |raw| <= 7 then Err(IndexError) else
    var temp :- ParseField(raw[7], Integer, ps);
    if |raw| <= 8 then Err(IndexError) else
    var powerdraw :- ParseField(raw[8], Watts, ps);
    Ok(Row(index, fanspeed, pstate, memTotal, memUsed, memFree, memUtil, util, temp, powerdraw))
  }

  /** Every row read from `raw` is what `raw` parses to, so a row whose
      columns all parse, with integer memory figures, gives its stats. */
  lemma ParseRowComplete(raw: seq<string>, ps: Parsers, row: Row)
    requires RowReadFrom(raw, ps, row)
    ensures ParseRow(raw, ps) == Ok(row)
    ensures CalcGpuStats(raw, ps) == Ok(RowStats(row))
  {
    ParseRowSucceeds(raw, ps, row);
    RowReadFromUnique(raw, ps, ParseRow(raw, ps).value, row);
  }

  lemma ParseRowSucceeds(raw: seq<string>, ps: Parsers, row: Row)
    requires RowReadFrom(raw, ps, row)
    ensures ParseRow(raw, ps).Ok?
  {
  }

  /** The columns of `raw` determine the row read from them. */
  lemma RowReadFromUnique(raw: seq<string>, ps: Parsers, a: Row, b: Row)
    requires RowReadFrom(raw, ps, a) && RowReadFrom(raw, ps, b)
    ensures a == b
  {
  }

  /** The accesses of `_calc_gpu_stats` that a row of `|raw|` columns reaches
      before its first missing column all succeed: `mem_total` (column 3);
      with column 4, `mem_used`, fan speed, pstate and `mem_free`; with
      column 6, memory and GPU utilization; with column 7, temperature. */
  predicate ReachedFieldsParse(raw: seq<string>, ps: Parsers) {
    && (|raw| > 3 ==> ParseField(raw[3], Bytes, ps).Ok?)
    && (|raw| > 4 ==>
         && ParseField(raw[4], Bytes, ps).Ok?
         && ParseField(raw[1], Percent, ps).Ok? && ParseField(raw[2], Pstate, ps).Ok?
         && ParseField(raw[3], Bytes, ps).Ok?
         && MemFree(ParseField(raw[3], Bytes, ps).value, ParseField(raw[4], Bytes, ps).value).Ok?)
    && (|raw| > 6 ==> ParseField(raw[6], Percent, ps).Ok? && ParseField(raw[5], Percent, ps).Ok?)
    && (|raw| > 7 ==> ParseField(raw[7], Integer, ps).Ok?)
  }

  /** A row with four to eight columns raises `IndexError` at its first
      missing column once the fields before it have parsed. */
  lemma ParseRowShort(raw: seq<string>, ps: Parsers)
    requires 4 <= |raw| < |STATS|
    requires ReachedFieldsParse(raw, ps)
    ensures ParseRow(raw, ps) == Err(IndexError)
    ensures CalcGpuStats(raw, ps) == Err(IndexError)
  {
  }

  /** The nine stat names of one GPU, in the order `_calc_gpu_stats` lists them. */
  const STAT_NAME_LIST: seq<string> :=
    ["fanspeed", "pstate", "mem_total", "mem_used", "mem_free", "mem_util", "util", "temp", "powerdraw"]

  lemma NamesDistinct()
    ensures forall i, j :: 0 <= i < j < |STAT_NAME_LIST| ==> STAT_NAME_LIST[i] != STAT_NAME_LIST[j]
  {
  }

  /** The `vals` list of `_calc_gpu_stats`: each stat name with its value. */
  function Vals(row: Row): (vals: seq<(string, Stat)>)
    ensures |vals| == |STAT_NAME_LIST|
    ensures forall i :: 0 <= i < |vals| ==> vals[i].0 == STAT_NAME_LIST[i]
  {
    [("fanspeed", row.fanspeed),
     ("pstate", row.pstate),
     ("mem_total", row.memTotal),
     ("mem_used", row.memUsed),
     ("mem_free", IntStat(row.memFree)),
     ("mem_util", row.memUtil),
     ("util", row.util),
     ("temp", row.temp),
     ("powerdraw", row.powerdraw)]
  }

  lemma GpuValKeysInjective(index: string)
    ensures forall a, b :: GpuValKey(index, a) == GpuValKey(index, b) ==> a == b
  {
    forall a, b | GpuValKey(index, a) == GpuValKey(index, b) ensures a == b {
      GpuValKeyInjective(index, a, b);
    }
  }

  /** The second half of `_calc_gpu_stats`: `dict()` of the `vals` list,
      each name turned into a key of the row's GPU. */
  function RowStats(row: Row): map<string, Stat> {
    var vals := Vals(row);
    GpuValKeysInjective(row.index);
    NamesDistinct();
    map i | 0 <= i < |vals| :: GpuValKey(row.index, vals[i].0) := vals[i].1
  }

  /** The dictionary of a parsed row has exactly the nine keys of its GPU. */
  lemma RowStatsKeys(row: Row)
    ensures RowStats(row).Keys == set n | n in STAT_NAME_LIST :: GpuValKey(row.index, n)
    ensures |RowStats(row).Keys| == 9
  {
    var vals := Vals(row);
    var m := RowStats(row);
    GpuValKeysInjective(row.index);
    NamesDistinct();
    KeySetSize(row.index, STAT_NAME_LIST);
    forall k | k in m.Keys ensures k in set n | n in STAT_NAME_LIST :: GpuValKey(row.index, n) {
      var i :| 0 <= i < |vals| && k == GpuValKey(row.index, vals[i].0);
      assert STAT_NAME_LIST[i] in STAT_NAME_LIST;
    }
    forall n | n in STAT_NAME_LIST ensures GpuValKey(row.index, n) in m.Keys {
      var i :| 0 <= i < |STAT_NAME_LIST| && STAT_NAME_LIST[i] == n;
      assert GpuValKey(row.index, vals[i].0) in m.Keys;
    }
  }

  lemma {:induction false} KeySetSize(idx: string, names: seq<string>)
    requires forall i, j :: 0 <= i < j < |names| ==> names[i] != names[j]
    ensures |set n | n in names :: GpuValKey(idx, n)| == |names|
  {
    if names != [] {
      var init := names[..|names| - 1];
      var last := names[|names| - 1];
      KeySetSize(idx, init);
      var s := set n | n in init :: GpuValKey(idx, n);
      assert (set n | n in names :: GpuValKey(idx, n)) == s + {GpuValKey(idx, last)};
      GpuValKeysInjective(idx);
      assert last !in init;
    }
  }

  /** The stat listed `i`-th is stored under its name's key. */
  lemma RowStatsAt(row: Row, i: nat)
    requires i < |STAT_NAME_LIST|
    ensures GpuValKey(row.index, STAT_NAME_LIST[i]) in RowStats(row)
    ensures RowStats(row)[GpuValKey(row.index, STAT_NAME_LIST[i])] == Vals(row)[i].1
  {
    GpuValKeysInjective(row.index);
    NamesDistinct();
    assert Vals(row)[i].0 == STAT_NAME_LIST[i];
  }

  /** Each stat under its own name's key. */
  lemma RowStatsLookup(row: Row)
    ensures var m, i := RowStats(row), row.index;
      && GpuValKey(i, "fanspeed") in m && m[GpuValKey(i, "fanspeed")] == row.fanspeed
      && GpuValKey(i, "pstate") in m && m[GpuValKey(i, "pstate")] == row.pstate
      && GpuValKey(i, "mem_total") in m && m[GpuValKey(i, "mem_total")] == row.memTotal
      && GpuValKey(i, "mem_used") in m && m[GpuValKey(i, "mem_used")] == row.memUsed
      && GpuValKey(i, "mem_free") in m && m[GpuValKey(i, "mem_free")] == IntStat(row.memFree)
      && GpuValKey(i, "mem_util") in m && m[GpuValKey(i, "mem_util")] == row.memUtil
      && GpuValKey(i, "util") in m && m[GpuValKey(i, "util")] == row.util
      && GpuValKey(i, "temp") in m && m[GpuValKey(i, "temp")] == row.temp
      && GpuValKey(i, "powerdraw") in m && m[GpuValKey(i, "powerdraw")] == row.powerdraw
  {
    RowStatsAt(row, 0);
    RowStatsAt(row, 1);
    RowStatsAt(row, 2);
    RowStatsAt(row, 3);
    RowStatsAt(row, 4);
    RowStatsAt(row, 5);
    RowStatsAt(row, 6);
    RowStatsAt(row, 7);
    RowStatsAt(row, 8);
  }

  /** `_calc_gpu_stats(raw)` */
  function CalcGpuStats(raw: seq<string>, ps: Parsers): Result<map<string, Stat>, GpuError> {
    var row :- ParseRow(raw, ps);
    Ok(RowStats(row))
  }

  /** The stats of a row read from `raw`: each stat read from a column is
      that column parsed the field's way. The columns are those of the
      `--query-gpu` fields in `STATS`: fan speed 1, pstate 2, memory total 3
      and used 4, GPU utilization 5, memory utilization 6, temperature 7,
      power draw 8. */
  lemma RowFields(raw: seq<string>, ps: Parsers, row: Row)
    requires RowReadFrom(raw, ps, row)
    ensures var m, i := RowStats(row), raw[0];
      && GpuValKey(i, "fanspeed") in m && ParseField(raw[1], Percent, ps) == Ok(m[GpuValKey(i, "fanspeed")])
      && GpuValKey(i, "pstate") in m && ParseField(raw[2], Pstate, ps) == Ok(m[GpuValKey(i, "pstate")])
      && GpuValKey(i, "mem_total") in m && ParseField(raw[3], Bytes, ps) == Ok(m[GpuValKey(i, "mem_total")])
      && GpuValKey(i, "mem_used") in m && ParseField(raw[4], Bytes, ps) == Ok(m[GpuValKey(i, "mem_used")])
      && GpuValKey(i, "util") in m && ParseField(raw[5], Percent, ps) == Ok(m[GpuValKey(i, "util")])
      && GpuValKey(i, "mem_util") in m && ParseField(raw[6], Percent, ps) == Ok(m[GpuValKey(i, "mem_util")])
      && GpuValKey(i, "temp") in m && ParseField(raw[7], Integer, ps) == Ok(m[GpuValKey(i, "temp")])
      && GpuValKey(i, "powerdraw") in m && ParseField(raw[8], Watts, ps) == Ok(m[GpuValKey(i, "powerdraw")])
  {
    RowStatsLookup(row);
  }

  /** In the stats `m` of GPU `index`, `mem_free` is `mem_total - mem_used`,
      both integers. */
  predicate MemFreeIn(m: map<string, Stat>, index: string) {
    var total, used, free := GpuValKey(index, "mem_total"), GpuValKey(index, "mem_used"), GpuValKey(index, "mem_free");
    && total in m && used in m && free in m
    && m[total].IntStat? && m[used].IntStat? && m[free] == IntStat(m[total].n - m[used].n)
  }

  /** In the stats of a row whose memory figures are integers, `mem_free` is
      `mem_total - mem_used`. */
  lemma RowMemFree(row: Row)
    requires MemFreeOf(row)
    ensures MemFreeIn(RowStats(row), row.index)
  {
    RowStatsAt(row, 2);
    RowStatsAt(row, 3);
    RowStatsAt(row, 4);
  }

  /** A row's stats, when it has any, come from a row with every column,
      and have exactly the nine keys of its GPU, `system/gpu/<raw[0]>/<name>`. */
  lemma CalcGpuStatsKeys(raw: seq<string>, ps: Parsers, m: map<string, Stat>)
    requires CalcGpuStats(raw, ps) == Ok(m)
    ensures |raw| >= |STATS|
    ensures m.Keys == set n | n in STAT_NAME_LIST :: GpuValKey(raw[0], n)
    ensures |m.Keys| == 9
  {
    var row := CalcGpuStatsRow(raw, ps, m);
    RowStatsKeys(row);
  }

  /** Each stat of a row read from a column is that column parsed the
      field's way (the columns of `STATS`: note `util` is column 5 and
      `mem_util` column 6). */
  lemma CalcGpuStatsFields(raw: seq<string>, ps: Parsers, m: map<string, Stat>)
    requires CalcGpuStats(raw, ps) == Ok(m)
    ensures |raw| >= |STATS|
    ensures var i := raw[0];
      && GpuValKey(i, "fanspeed") in m && ParseField(raw[1], Percent, ps) == Ok(m[GpuValKey(i, "fanspeed")])
      && GpuValKey(i, "pstate") in m && ParseField(raw[2], Pstate, ps) == Ok(m[GpuValKey(i, "pstate")])
      && GpuValKey(i, "mem_total") in m && ParseField(raw[3], Bytes, ps) == Ok(m[GpuValKey(i, "mem_total")])
      && GpuValKey(i, "mem_used") in m && ParseField(raw[4], Bytes, ps) == Ok(m[GpuValKey(i, "mem_used")])
      && GpuValKey(i, "util") in m && ParseField(raw[5], Percent, ps) == Ok(m[GpuValKey(i, "util")])
      && GpuValKey(i, "mem_util") in m && ParseField(raw[6], Percent, ps) == Ok(m[GpuValKey(i, "mem_util")])
      && GpuValKey(i, "temp") in m && ParseField(raw[7], Integer, ps) == Ok(m[GpuValKey(i, "temp")])
      && GpuValKey(i, "powerdraw") in m && ParseField(raw[8], Watts, ps) == Ok(m[GpuValKey(i, "powerdraw")])
  {
    var row := CalcGpuStatsRow(raw, ps, m);
    RowFields(raw, ps, row);
  }

  /** `mem_free` is `mem_total - mem_used`, both integers. */
  lemma CalcGpuStatsMemFree(raw: seq<string>, ps: Parsers, m: map<string, Stat>)
    requires CalcGpuStats(raw, ps) == Ok(m)
    ensures |raw| >= |STATS|
    ensures MemFreeIn(m, raw[0])
  {
    var row := CalcGpuStatsRow(raw, ps, m);
    RowMemFree(row);
  }

  /** With the plugin's own parsers, a supported memory figure is a whole
      number of mebibytes, in bytes. */
  lemma StandardMemoryInMiB(raw: seq<string>, percent: string -> Result<real, GpuError>,
                            watts: string -> Result<real, GpuError>, m: map<string, Stat>)
    requires CalcGpuStats(raw, Standard(percent, watts)) == Ok(m)
    ensures |raw| >= |STATS|
    ensures GpuValKey(raw[0], "mem_total") in m && m[GpuValKey(raw[0], "mem_total")].IntStat?
    ensures m[GpuValKey(raw[0], "mem_total")].n % MIB == 0
    ensures GpuValKey(raw[0], "mem_used") in m && m[GpuValKey(raw[0], "mem_used")].IntStat?
    ensures m[GpuValKey(raw[0], "mem_used")].n % MIB == 0
  {
    var ps := Standard(percent, watts);
    CalcGpuStatsFields(raw, ps, m);
    CalcGpuStatsMemFree(raw, ps, m);
    assert ParseField(raw[3], Bytes, ps) == Ok(m[GpuValKey(raw[0], "mem_total")]);
    assert ParseField(raw[4], Bytes, ps) == Ok(m[GpuValKey(raw[0], "mem_used")]);
  }

  /** A row's stats are those of the row it parses to. */
  lemma CalcGpuStatsRow(raw: seq<string>, ps: Parsers, m: map<string, Stat>) returns (row: Row)
    requires CalcGpuStats(raw, ps) == Ok(m)
    ensures RowReadFrom(raw, ps, row) && m == RowStats(row)
  {
    row := ParseRow(raw, ps).value;
  }

  /** A row whose memory total or used is `[Not Supported]` fails once the
      fields before `mem_free` have parsed: `None - int` raises `TypeError`. */
  lemma UnsupportedMemoryFails(raw: seq<string>, ps: Parsers)
    requires |raw| >= |STATS|
    requires PyText.Strip(raw[3]) == NOT_SUPPORTED || PyText.Strip(raw[4]) == NOT_SUPPORTED
    requires ParseField(raw[3], Bytes, ps).Ok? && ParseField(raw[4], Bytes, ps).Ok?
    requires ParseField(raw[1], Percent, ps).Ok? && ParseField(raw[2], Pstate, ps).Ok?
    ensures CalcGpuStats(raw, ps) == Err(TypeError)
  {
  }

  // ---- merging rows ----------------------------------------------------

  /** `stats.update(...)` with each result in turn: later dictionaries
      override earlier ones, and the first exception ends the loop. */
  function Merge(results: seq<Result<map<string, Stat>, GpuError>>): Result<map<string, Stat>, GpuError> {
    if results == [] then Ok(map[])
    else
      var before :- Merge(results[..|results| - 1]);
      var last :- results[|results| - 1];
      Ok(before + last)
  }

  /** `_calc_gpu_stats` of each row. */
  function RowResults(rows: seq<seq<string>>, ps: Parsers): (r: seq<Result<map<string, Stat>, GpuError>>)
    ensures |r| == |rows| && forall i :: 0 <= i < |rows| ==> r[i] == CalcGpuStats(rows[i], ps)
  {
    seq(|rows|, i requires 0 <= i < |rows| => CalcGpuStats(rows[i], ps))
  }

  /** `GPUPlugin._gpu_stats` over the rows `_read_raw_gpu_stats` returned;
      the plugin's parsers are `Standard(_parse_percent, _parse_watts)`. */
  method GpuStats(rows: seq<seq<string>>, ps: Parsers) returns (r: Result<map<string, Stat>, GpuError>)
    ensures r == Merge(RowResults(rows, ps))
  {
    var calcRow := raw => CalcGpuStats(raw, ps);
    r := MergeRows(rows, calcRow);
    assert seq(|rows|, i requires 0 <= i < |rows| => calcRow(rows[i])) == RowResults(rows, ps);
  }

  /** The loop of `_gpu_stats`: `stats.update(calcRow(raw))` for each row in
      turn, the first exception propagating. */
  method MergeRows(rows: seq<seq<string>>, calcRow: seq<string> -> Result<map<string, Stat>, GpuError>)
    returns (r: Result<map<string, Stat>, GpuError>)
    ensures r == Merge(seq(|rows|, i requires 0 <= i < |rows| => calcRow(rows[i])))
  {
    ghost var results := seq(|rows|, i requires 0 <= i < |rows| => calcRow(rows[i]));
    var stats: map<string, Stat> := map[];
    for i := 0 to |rows|
      invariant Merge(results[..i]) == Ok(stats)
    {
      assert results[..i + 1][..i] == results[..i];
      var rowStats := calcRow(rows[i]);
      if rowStats.Err? {
        MergeErrorPersists(results, i + 1);
        return Err(rowStats.error);
      }
      stats := stats + rowStats.value;
    }
    assert results[..|rows|] == results;
    return Ok(stats);
  }

  lemma {:induction false} MergeErrorPersists(results: seq<Result<map<string, Stat>, GpuError>>, n: nat)
    requires n <= |results| && Merge(results[..n]).Err?
    ensures Merge(results) == Merge(results[..n])
    decreases |results| - n
  {
    if n < |results| {
      assert results[..n + 1][..n] == results[..n];
      MergeErrorPersists(results, n + 1);
    } else {
      assert results[..n] == results;
    }
  }

  /** Merging succeeds exactly when every row does. */
  lemma {:induction false} MergeOk(results: seq<Result<map<string, Stat>, GpuError>>)
    ensures Merge(results).Ok? <==> forall i :: 0 <= i < |results| ==> results[i].Ok?
  {
    if results != [] {
      var init := results[..|results| - 1];
      MergeOk(init);
      assert forall i :: 0 <= i < |init| ==> init[i] == results[i];
    }
  }

  /** A failure is the first failing row's exception. */
  lemma {:induction false} MergeFirstError(results: seq<Result<map<string, Stat>, GpuError>>, i: nat)
    requires i < |results| && results[i].Err?
    requires forall j :: 0 <= j < i ==> results[j].Ok?
    ensures Merge(results) == Err(results[i].error)
  {
    var prefix := results[..i + 1];
    MergeOk(results[..i]);
    assert prefix[..i] == results[..i];
    assert forall j :: 0 <= j < i ==> results[..i][j] == results[j];
    MergeErrorPersists(results, i + 1);
  }

  /** `results[i]` is the last dictionary that has the key `k`. */
  predicate LastWith(results: seq<Result<map<string, Stat>, GpuError>>, k: string, i: int) {
    && 0 <= i < |results| && results[i].Ok? && k in results[i].value
    && forall j :: i < j < |results| ==> results[j].Ok? ==> k !in results[j].value
  }

  /** In the merged stats a key is present exactly when some row has it. */
  lemma {:induction false} MergeKeys(results: seq<Result<map<string, Stat>, GpuError>>, m: map<string, Stat>, k: string)
    requires Merge(results) == Ok(m)
    ensures forall i :: 0 <= i < |results| ==> results[i].Ok?
    ensures k in m <==> exists i :: 0 <= i < |results| && k in results[i].value
  {
    MergeOk(results);
    if results != [] {
      var init := results[..|results| - 1];
      var before := Merge(init).value;
      var last := results[|results| - 1].value;
      assert m == before + last;
      MergeKeys(init, before, k);
      assert forall i :: 0 <= i < |init| ==> init[i] == results[i];
      if k in m && k !in last {
        var i :| 0 <= i < |init| && k in init[i].value;
        assert k in results[i].value;
      }
    }
  }

  /** A key's merged value is that of the last row that has it. */
  lemma {:induction false} MergeLastWins(results: seq<Result<map<string, Stat>, GpuError>>, m: map<string, Stat>, k: string, i: nat)
    requires Merge(results) == Ok(m)
    requires LastWith(results, k, i)
    ensures k in m && m[k] == results[i].value[k]
  {
    var n := |results| - 1;
    var init := results[..n];
    var before := Merge(init).value;
    var last := results[n].value;
    assert m == before + last;
    if i < n {
      assert k !in last;
      assert LastWith(init, k, i) by {
        forall j | i < j < |init| ensures init[j].Ok? ==> k !in init[j].value {
          assert init[j] == results[j];
        }
      }
      MergeLastWins(init, before, k, i);
    }
  }
}
