/** The text rewrites the harness's doctest output checker applies before
    comparing expected and actual output (`Py23DocChecker`), and the two
    helpers that shorten an exception's last line. */
module DocChecker {
  import opened Wrappers
  import PyText

  /** The doctest option flags the harness uses; the harness's own four are
      registered at import time, so their bit values are not fixed. A flag
      set stands for the `optionflags` bit mask. */
  datatype OptionFlag =
    | Ellipsis
    | NormalizeWhitespace
    | ReportOnlyFirstFailure
    | Skip
    | NormalizePaths
    | StripU
    | StripL
    | Windows

  // ---- _windows_got ------------------------------------------------------

  predicate NoBackslash(s: string) {
    '\\' !in s
  }

  predicate IsDriveLetter(c: char) {
    ('c' <= c <= 'z') || ('C' <= c <= 'Z')
  }

  /** `re.sub(r"[c-zC-Z]:\\\\?|\\\\?", "/", s[i..])`: scanning left to right, a
      drive letter with a colon and one or two backslashes, or else one or two
      backslashes, becomes a single `/`; other characters are copied. */
  function NormalizePathsFrom(s: string, i: nat): (r: string)
    requires i <= |s|
    ensures NoBackslash(r)
    decreases |s| - i
  {
    if i == |s| then []
    else if i + 2 < |s| && IsDriveLetter(s[i]) && s[i + 1] == ':' && s[i + 2] == '\\' then
      var j := if i + 3 < |s| && s[i + 3] == '\\' then i + 4 else i + 3;
      "/" + NormalizePathsFrom(s, j)
    else if s[i] == '\\' then
      var j := if i + 1 < |s| && s[i + 1] == '\\' then i + 2 else i + 1;
      "/" + NormalizePathsFrom(s, j)
    else
      [s[i]] + NormalizePathsFrom(s, i + 1)
  }

  /** A match starts at `i`: a drive prefix or a backslash. */
  predicate MatchAt(s: string, i: nat)
    requires i < |s|
  {
    (i + 2 < |s| && IsDriveLetter(s[i]) && s[i + 1] == ':' && s[i + 2] == '\\') || s[i] == '\\'
  }

  /** Where the scan of `s` resumes after position `i`: past a drive prefix
      or a backslash pair, or one character on. */
  function NextScan(s: string, i: nat): (j: nat)
    requires i < |s|
    ensures i < j <= |s|
  {
    if i + 2 < |s| && IsDriveLetter(s[i]) && s[i + 1] == ':' && s[i + 2] == '\\' then
      if i + 3 < |s| && s[i + 3] == '\\' then i + 4 else i + 3
    else if s[i] == '\\' then
      if i + 1 < |s| && s[i + 1] == '\\' then i + 2 else i + 1
    else i + 1
  }

  /** One step of the scan: a match becomes `/`, any other character is
      copied, and the scan resumes at `NextScan`. */
  lemma NormalizePathsStep(s: string, i: nat)
    requires i < |s|
    ensures NormalizePathsFrom(s, i) ==
      (if MatchAt(s, i) then "/" else [s[i]]) + NormalizePathsFrom(s, NextScan(s, i))
  {
  }

  /** The scan reads only what lies ahead of it: two strings that agree from
      positions `i` and `k` on are rewritten alike from there. */
  lemma {:induction false} NormalizePathsAhead(s: string, i: nat, q: string, k: nat)
    requires i <= |s| && k <= |q| && |s| - i == |q| - k
    requires forall d :: i <= d < |s| ==> s[d] == q[d - i + k]
    ensures NormalizePathsFrom(s, i) == NormalizePathsFrom(q, k)
    decreases |s| - i
  {
    if i < |s| {
      assert s[i] == q[k];
      assert i + 1 < |s| ==> s[i + 1] == q[k + 1];
      assert i + 2 < |s| ==> s[i + 2] == q[k + 2];
      assert i + 3 < |s| ==> s[i + 3] == q[k + 3];
      var j := NextScan(s, i);
      assert NextScan(q, k) == j - i + k && (MatchAt(s, i) <==> MatchAt(q, k));
      NormalizePathsAhead(s, j, q, j - i + k);
      NormalizePathsStep(s, i);
      NormalizePathsStep(q, k);
      var e := if MatchAt(s, i) then "/" else [s[i]];
      assert e == if MatchAt(q, k) then "/" else [q[k]];
      assert NormalizePathsFrom(s, i) == e + NormalizePathsFrom(s, j);
      assert NormalizePathsFrom(q, k) == e + NormalizePathsFrom(s, j);
    }
  }

  /** The scan at position `|p| + k` of `p + q` reads only `q`. */
  lemma NormalizePathsShift(p: string, q: string, k: nat)
    requires k <= |q|
    ensures NormalizePathsFrom(p + q, |p| + k) == NormalizePathsFrom(q, k)
  {
    NormalizePathsAhead(p + q, |p| + k, q, k);
  }

  /** `re.sub(r"[c-zC-Z]:\\\\?|\\\\?", "/", s)` on the whole string. */
  function NormalizeWindowsPaths(s: string): (r: string)
    ensures NoBackslash(r)
    ensures NoBackslash(s) ==> r == s
  {
    assert s[0..] == s;
    NormalizePathsUnchanged(s, 0);
    NormalizePathsFrom(s, 0)
  }

  /** Text without a backslash holds no match and is copied unchanged. */
  lemma {:induction false} NormalizePathsUnchanged(s: string, i: nat)
    requires i <= |s|
    ensures NoBackslash(s[i..]) ==> NormalizePathsFrom(s, i) == s[i..]
    decreases |s| - i
  {
    if i < |s| && NoBackslash(s[i..]) {
      assert s[i..][0] == s[i];
      assert i + 2 < |s| ==> s[i..][2] == s[i + 2];
      assert s[i + 1..] == s[i..][1..];
      NormalizePathsStep(s, i);
      NormalizePathsUnchanged(s, i + 1);
      assert s[i..] == [s[i]] + s[i + 1..];
    }
  }

  /** Where no match starts, a character is copied: it is not a backslash,
      and not a drive letter followed by `:` and a backslash. */
  lemma NormalizePathsCopies(c: char, q: string)
    requires c != '\\'
    requires !(IsDriveLetter(c) && |q| >= 2 && q[0] == ':' && q[1] == '\\')
    ensures NormalizeWindowsPaths([c] + q) == [c] + NormalizeWindowsPaths(q)
  {
    NormalizePathsShift([c], q, 0);
  }

  /** One or two backslashes become one `/`; a third starts a new match. */
  lemma NormalizePathsBackslashes(q: string)
    ensures q == [] || q[0] != '\\' ==> NormalizeWindowsPaths("\\" + q) == "/" + NormalizeWindowsPaths(q)
    ensures NormalizeWindowsPaths("\\\\" + q) == "/" + NormalizeWindowsPaths(q)
  {
    NormalizePathsShift("\\", q, 0);
    NormalizePathsShift("\\\\", q, 0);
  }

  /** A drive prefix `X:` with one or two backslashes becomes one `/`. */
  lemma NormalizePathsDrive(d: char, q: string)
    requires IsDriveLetter(d)
    ensures q == [] || q[0] != '\\' ==> NormalizeWindowsPaths([d, ':', '\\'] + q) == "/" + NormalizeWindowsPaths(q)
    ensures NormalizeWindowsPaths([d, ':', '\\', '\\'] + q) == "/" + NormalizeWindowsPaths(q)
  {
    NormalizePathsShift([d, ':', '\\'], q, 0);
    NormalizePathsShift([d, ':', '\\', '\\'], q, 0);
  }

  /** `a:` and `b:` are not drive prefixes: the letter and the colon are
      copied, and only the backslash after them becomes `/`. */
  lemma NormalizePathsNotDrive(d: char, q: string)
    requires d == 'a' || d == 'b' || d == 'A' || d == 'B'
    requires q == [] || q[0] != '\\'
    ensures NormalizeWindowsPaths([d, ':', '\\'] + q) == [d, ':', '/'] + NormalizeWindowsPaths(q)
  {
    var s := [d, ':', '\\'] + q;
    assert s[0] == d && s[1] == ':' && s[2] == '\\';
    assert |s| > 3 ==> s[3] == q[0];
    NormalizePathsStep(s, 0);
    NormalizePathsStep(s, 1);
    NormalizePathsStep(s, 2);
    NormalizePathsShift([d, ':', '\\'], q, 0);
  }

  /** `_windows_got`: path normalisation happens only under `NORMALIZE_PATHS`. */
  function WindowsGot(got: string, flags: set<OptionFlag>): (r: string)
    ensures NormalizePaths in flags ==> NoBackslash(r)
    ensures NormalizePaths !in flags || NoBackslash(got) ==> r == got
  {
    if NormalizePaths in flags then NormalizeWindowsPaths(got) else got
  }

  /** Windows paths in output become POSIX-looking paths. */
  lemma WindowsGotExample()
    ensures WindowsGot("C:\\x\\y", {NormalizePaths}) == "/x/y"
    ensures WindowsGot("a\\\\b", {NormalizePaths}) == "a/b"
  {
    var s := "C:\\x\\y";
    assert NormalizePathsFrom(s, 5) == "y";
    assert NormalizePathsFrom(s, 4) == "/y";
    assert NormalizePathsFrom(s, 3) == "x/y";
    var t := "a\\\\b";
    assert NormalizePathsFrom(t, 3) == "b";
    assert NormalizePathsFrom(t, 1) == "/b";
  }

  // ---- _strip_L ----------------------------------------------------------

  /** The end of the run of ASCII digits starting at `i`. */
  function DigitRunEnd(s: string, i: nat): (j: nat)
    requires i <= |s|
    ensures i <= j <= |s|
    ensures forall k :: i <= k < j ==> PyText.IsDigit(s[k])
    ensures j == |s| || !PyText.IsDigit(s[j])
    decreases |s| - i
  {
    if i < |s| && PyText.IsDigit(s[i]) then DigitRunEnd(s, i + 1) else i
  }

  /** `re.sub(r"([0-9]+)L", "\\1", s[i..])` as the regular-expression engine
      runs it: at each position it tries a maximal digit run followed by `L`;
      on a match it keeps the digits, drops the `L` and resumes after it,
      otherwise it copies one character and moves on. */
  function StripLFrom(s: string, i: nat): string
    requires i <= |s|
    decreases |s| - i
  {
    if i == |s| then []
    else
      var j := DigitRunEnd(s, i);
      if i < j && j < |s| && s[j] == 'L' then s[i..j] + StripLFrom(s, j + 1)
      else [s[i]] + StripLFrom(s, i + 1)
  }

  /** Whether the character at `k` survives `_strip_L`: exactly the `L`s
      that directly follow a digit are removed. */
  predicate KeptByStripL(s: string, k: nat)
    requires k < |s|
  {
    !(s[k] == 'L' && k > 0 && PyText.IsDigit(s[k - 1]))
  }

  /** The characters of `s[i..]` that `KeptByStripL` keeps, in order. */
  function KeepFrom(s: string, i: nat): string
    requires i <= |s|
    decreases |s| - i
  {
    if i == |s| then []
    else (if KeptByStripL(s, i) then [s[i]] else []) + KeepFrom(s, i + 1)
  }

  /** `_strip_L` */
  function StripLongSuffixes(got: string): string {
    StripLFrom(got, 0)
  }

  lemma {:induction false} KeepFromDigits(s: string, i: nat, j: nat)
    requires i <= j < |s|
    requires forall k :: i <= k < j ==> PyText.IsDigit(s[k])
    requires i == j || KeptByStripL(s, i)
    ensures KeepFrom(s, i) == s[i..j] + KeepFrom(s, j)
    decreases j - i
  {
    if i < j {
      assert i + 1 < j ==> PyText.IsDigit(s[i + 1]);
      KeepFromDigits(s, i + 1, j);
      assert KeepFrom(s, i) == [s[i]] + KeepFrom(s, i + 1);
      calc {
        KeepFrom(s, i);
        [s[i]] + (s[i + 1..j] + KeepFrom(s, j));
        ([s[i]] + s[i + 1..j]) + KeepFrom(s, j);
        { assert s[i..j] == [s[i]] + s[i + 1..j]; }
        s[i..j] + KeepFrom(s, j);
      }
    }
  }

  /** A digit run ending in `L` keeps its digits and loses the `L`. */
  lemma KeepFromSuffix(s: string, i: nat, j: nat)
    requires i < j < |s| && s[j] == 'L'
    requires forall k :: i <= k < j ==> PyText.IsDigit(s[k])
    requires KeptByStripL(s, i)
    ensures KeepFrom(s, i) == s[i..j] + KeepFrom(s, j + 1)
  {
    assert PyText.IsDigit(s[j - 1]);
    assert !KeptByStripL(s, j);
    assert KeepFrom(s, j) == KeepFrom(s, j + 1);
    KeepFromDigits(s, i, j);
  }

  /** Where no digit run ending in `L` starts at `i`, the next character is kept. */
  lemma KeptAfterUnmatched(s: string, i: nat)
    requires i < |s|
    requires var j := DigitRunEnd(s, i); !(i < j && j < |s| && s[j] == 'L')
    ensures i + 1 < |s| ==> KeptByStripL(s, i + 1)
  {
    var j := DigitRunEnd(s, i);
    if i + 1 < |s| && PyText.IsDigit(s[i]) {
      assert i < j;
      assert j == i + 1 || PyText.IsDigit(s[i + 1]);
    }
  }

  lemma {:induction false} StripLFromKeeps(s: string, i: nat)
    requires i <= |s|
    requires i == |s| || KeptByStripL(s, i)
    ensures StripLFrom(s, i) == KeepFrom(s, i)
    decreases |s| - i, 1
  {
    if i < |s| {
      var j := DigitRunEnd(s, i);
      if i < j && j < |s| && s[j] == 'L' {
        StripLFromSuffix(s, i, j);
      } else {
        assert StripLFrom(s, i) == [s[i]] + StripLFrom(s, i + 1);
        assert KeepFrom(s, i) == [s[i]] + KeepFrom(s, i + 1);
        KeptAfterUnmatched(s, i);
        StripLFromKeeps(s, i + 1);
      }
    }
  }

  /** The case of `StripLFromKeeps` where a digit run ending in `L` starts at `i`. */
  lemma {:induction false} StripLFromSuffix(s: string, i: nat, j: nat)
    requires i < j < |s| && s[j] == 'L' && j == DigitRunEnd(s, i)
    requires KeptByStripL(s, i)
    ensures StripLFrom(s, i) == KeepFrom(s, i)
    decreases |s| - i, 0
  {
    assert StripLFrom(s, i) == s[i..j] + StripLFrom(s, j + 1);
    assert j + 1 < |s| ==> KeptByStripL(s, j + 1);
    StripLFromKeeps(s, j + 1);
    KeepFromSuffix(s, i, j);
  }

  /** The regular-expression rewrite removes exactly the `L`s that directly
      follow a digit, and nothing else. */
  lemma StripLongSuffixesKeeps(got: string)
    ensures StripLongSuffixes(got) == KeepFrom(got, 0)
  {
    StripLFromKeeps(got, 0);
  }

  lemma {:induction false} DigitRunEndAt(s: string, i: nat, j: nat)
    requires i <= j <= |s|
    requires forall k :: i <= k < j ==> PyText.IsDigit(s[k])
    requires j == |s| || !PyText.IsDigit(s[j])
    ensures DigitRunEnd(s, i) == j
    decreases j - i
  {
    if i < j { DigitRunEndAt(s, i + 1, j); }
  }

  /** A Python 2 long literal `str(n) + "L"` loses its suffix. */
  lemma StripLongLiteral(n: nat)
    ensures StripLongSuffixes(PyText.NatDecimal(n) + "L") == PyText.NatDecimal(n)
  {
    var d := PyText.NatDecimal(n);
    var s := d + "L";
    assert forall k :: 0 <= k < |d| ==> s[k] == d[k];
    DigitRunEndAt(s, 0, |d|);
    var j := |d|;
    assert s[0..j] == d;
    assert StripLFrom(s, 0) == d + StripLFrom(s, j + 1);
  }

  /** The rewrite is not idempotent: only the first of two `L`s follows a digit. */
  lemma StripLongSuffixesNotIdempotent()
    ensures StripLongSuffixes("1LL") == "1L"
    ensures StripLongSuffixes(StripLongSuffixes("1LL")) == "1"
  {
    assert DigitRunEnd("1LL", 0) == 1;
    assert DigitRunEnd("1L", 0) == 1;
    assert "1LL"[0..1] == "1";
    assert "1L"[0..1] == "1";
  }

  // ---- _got and _want ----------------------------------------------------

  /** `_py2_got`; `_strip_u` is supplied as `stripU`. */
  function Py2Got(got: string, flags: set<OptionFlag>, stripU: string -> string): string {
    var g := if StripU in flags then stripU(got) else got;
    if StripL in flags then StripLongSuffixes(g) else g
  }

  /** Under `STRIP_L` the Python 2 rewrite drops exactly the `L`s that
      directly follow a digit, after `_strip_u` when `STRIP_U` is set too;
      without `STRIP_L` no `L` is touched. */
  lemma Py2GotKeeps(got: string, flags: set<OptionFlag>, stripU: string -> string)
    ensures var g := if StripU in flags then stripU(got) else got;
      && (StripL in flags ==> Py2Got(got, flags, stripU) == KeepFrom(g, 0))
      && (StripL !in flags ==> Py2Got(got, flags, stripU) == g)
  {
    var g := if StripU in flags then stripU(got) else got;
    StripLongSuffixesKeeps(g);
  }

  /** `_got`: the Python 2 rewrites on a Python 2 interpreter, then the path
      rewrite on Windows. */
  function Got(got: string, flags: set<OptionFlag>, platform: string, pyMajor: nat,
               stripU: string -> string): (r: string)
    ensures pyMajor >= 3 && (platform != "Windows" || NormalizePaths !in flags) ==> r == got
    ensures platform == "Windows" && NormalizePaths in flags ==> NoBackslash(r)
  {
    var g := if pyMajor < 3 then Py2Got(got, flags, stripU) else got;
    if platform == "Windows" then WindowsGot(g, flags) else g
  }

  /** `_want`: a leading `???` stands for doctest's `...`; the pattern is
      anchored at the start of the whole text only. */
  function Want(want: string): (r: string)
    ensures |r| == |want| && (|want| >= 3 ==> r[3..] == want[3..])
    ensures PyText.StartsWith(want, "???") ==> PyText.StartsWith(r, "...")
    ensures !PyText.StartsWith(want, "???") ==> r == want
  {
    if PyText.StartsWith(want, "???") then "..." + want[3..] else want
  }

  /** Rewriting the expected text twice changes nothing more. */
  lemma WantIdempotent(want: string)
    ensures Want(Want(want)) == Want(want)
  {
    if PyText.StartsWith(want, "???") {
      assert Want(want)[..3] == "...";
    }
  }

  // ---- _strip_class_module and _strip_error_module -----------------------

  /** `class_name[class_name.rfind(".") + 1:]` */
  function StripClassModule(className: string): (r: string)
    ensures PyText.EndsWith(className, r)
    ensures '.' !in r
    ensures '.' in className ==> className[|className| - |r| - 1] == '.'
    ensures '.' !in className ==> r == className
  {
    var k := PyText.RFind(className, '.');
    var r := className[k + 1..];
    assert forall j :: 0 <= j < |r| ==> r[j] == className[k + 1 + j];
    assert '.' !in className ==> k == -1 by {
      if k >= 0 { assert className[k] == '.'; }
    }
    r
  }

  /** An ASCII `[\w.]` character. */
  predicate IsNameChar(c: char) {
    ('a' <= c <= 'z') || ('A' <= c <= 'Z') || ('0' <= c <= '9') || c == '_' || c == '.'
  }

  predicate IsName(s: string) {
    |s| > 0 && forall k :: 0 <= k < |s| ==> IsNameChar(s[k])
  }

  /** `line` read as `re.match(r"([\w\.]+): (.+)")` reads it: `name`,
      then `": "`, then `msg` up to the end of its line, then the rest. */
  predicate ErrorLineParts(line: string, name: string, msg: string, rest: string) {
    line == name + ": " + msg + rest
    && IsName(name)
    && |msg| > 0 && '\n' !in msg
    && (rest == [] || rest[0] == '\n')
  }

  function NameRunEnd(s: string, i: nat): (j: nat)
    requires i <= |s|
    ensures i <= j <= |s|
    ensures forall k :: i <= k < j ==> IsNameChar(s[k])
    ensures j == |s| || !IsNameChar(s[j])
    decreases |s| - i
  {
    if i < |s| && IsNameChar(s[i]) then NameRunEnd(s, i + 1) else i
  }

  function LineEnd(s: string, i: nat): (j: nat)
    requires i <= |s|
    ensures i <= j <= |s|
    ensures forall k :: i <= k < j ==> s[k] != '\n'
    ensures j == |s| || s[j] == '\n'
    decreases |s| - i
  {
    if i < |s| && s[i] != '\n' then LineEnd(s, i + 1) else i
  }

  /** The two groups of the match, or `None` when the line does not match. */
  function MatchErrorLine(line: string): (m: Option<(string, string)>)
    ensures m.Some? ==> exists rest :: ErrorLineParts(line, m.value.0, m.value.1, rest)
  {
    var k := NameRunEnd(line, 0);
    if 0 < k && k + 2 < |line| && line[k] == ':' && line[k + 1] == ' ' && line[k + 2] != '\n' then
      var e := LineEnd(line, k + 2);
      var name, msg, rest := line[..k], line[k + 2..e], line[e..];
      assert line == name + ": " + msg + rest;
      assert ErrorLineParts(line, name, msg, rest);
      Some((name, msg))
    else None
  }

  /** The match is unique: any reading of the line as an error line is the
      one `MatchErrorLine` finds. */
  lemma MatchErrorLineComplete(line: string, name: string, msg: string, rest: string)
    requires ErrorLineParts(line, name, msg, rest)
    ensures MatchErrorLine(line) == Some((name, msg))
  {
    var k := |name|;
    assert line[k] == ':' && line[k + 1] == ' ';
    assert forall j :: 0 <= j < k ==> line[j] == name[j];
    assert NameRunEnd(line, 0) == k;
    assert line[k + 2] == msg[0];
    var e := k + 2 + |msg|;
    assert forall j :: k + 2 <= j < e ==> line[j] == msg[j - k - 2];
    assert LineEnd(line, k + 2) == e;
    assert line[..k] == name;
    assert line[k + 2..e] == msg;
  }

  /** `_strip_error_module`: on an `error: message` line only the error's
      name loses its module path; any other line is treated as a class name. */
  function StripErrorModule(line: string): (r: string)
    ensures forall name, msg, rest :: ErrorLineParts(line, name, msg, rest) ==>
      r == StripClassModule(name) + ": " + msg
    ensures (forall name, msg, rest :: !ErrorLineParts(line, name, msg, rest)) ==>
      r == StripClassModule(line)
  {
    forall name, msg, rest | ErrorLineParts(line, name, msg, rest)
      ensures MatchErrorLine(line) == Some((name, msg))
    {
      MatchErrorLineComplete(line, name, msg, rest);
    }
    match MatchErrorLine(line)
    case None => StripClassModule(line)
    case Some((name, msg)) => StripClassModule(name) + ": " + msg
  }

  /** The class name after a module path is what remains. */
  lemma StripClassModuleOfQualified(path: string, name: string)
    requires '.' !in name
    ensures StripClassModule(path + "." + name) == name
  {
    var s := path + "." + name;
    var r := StripClassModule(s);
    assert s[|path|] == '.';
    assert r == s[|s| - |r|..] && s[|s| - |name|..] == name;
  }

  /** An exception line `path.Name: message` comes out as `Name: message`,
      the rest of the text after the message's line dropped. */
  lemma StripErrorModuleQualified(path: string, name: string, msg: string, rest: string)
    requires '.' !in name && IsName(path + "." + name)
    requires |msg| > 0 && '\n' !in msg && (rest == [] || rest[0] == '\n')
    ensures StripErrorModule(path + "." + name + ": " + msg + rest) == name + ": " + msg
  {
    assert ErrorLineParts(path + "." + name + ": " + msg + rest, path + "." + name, msg, rest);
    StripClassModuleOfQualified(path, name);
  }
}
