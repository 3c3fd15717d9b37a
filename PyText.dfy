/** The handful of Python string built-ins the modelled code relies on:
    `str.strip()`, `str.startswith`/`endswith`, `str.rfind`, `posixpath.join`,
    `int(str)` and `str(int)`. Strings are sequences of code points. */
module PyText {
  import opened Wrappers

  /** `c.isspace()`: CPython's table of whitespace code points. */
  predicate IsSpace(c: char) {
    var n := c as int;
    (9 <= n <= 13) || (28 <= n <= 32) || n == 0x85 || n == 0xA0 || n == 0x1680
    || (0x2000 <= n <= 0x200A) || n == 0x2028 || n == 0x2029 || n == 0x202F
    || n == 0x205F || n == 0x3000
  }

  predicate AllSpace(s: string) {
    forall i :: 0 <= i < |s| ==> IsSpace(s[i])
  }

  /** The index of the first non-whitespace character at or after `i`, or
      `|s|` when there is none. */
  function SpaceEnd(s: string, i: nat): (j: nat)
    requires i <= |s|
    ensures i <= j <= |s|
    ensures forall k :: i <= k < j ==> IsSpace(s[k])
    ensures j == |s| || !IsSpace(s[j])
    decreases |s| - i
  {
    if i < |s| && IsSpace(s[i]) then SpaceEnd(s, i + 1) else i
  }

  /** The index after the last non-whitespace character before `j`, or 0
      when there is none. */
  function SpaceStart(s: string, j: nat): (i: nat)
    requires j <= |s|
    ensures i <= j
    ensures forall k :: i <= k < j ==> IsSpace(s[k])
    ensures i == 0 || !IsSpace(s[i - 1])
  {
    if j > 0 && IsSpace(s[j - 1]) then SpaceStart(s, j - 1) else j
  }

  /** `r` is `x` with the whitespace `a` before it and `b` after it removed,
      and `r` itself neither starts nor ends with whitespace. */
  predicate Padding(x: string, a: string, r: string, b: string) {
    AllSpace(a) && AllSpace(b) && x == a + r + b
    && (r == [] || (!IsSpace(r[0]) && !IsSpace(r[|r| - 1])))
  }

  /** `s.strip()` */
  function Strip(s: string): (r: string)
    ensures r == [] || (!IsSpace(r[0]) && !IsSpace(r[|r| - 1]))
  {
    var i := SpaceEnd(s, 0);
    var j := SpaceStart(s, |s|);
    if i < j then s[i..j] else []
  }

  lemma {:induction false} SpaceEndAt(s: string, i: nat, j: nat)
    requires i <= j <= |s|
    requires forall k :: i <= k < j ==> IsSpace(s[k])
    requires j == |s| || !IsSpace(s[j])
    ensures SpaceEnd(s, i) == j
    decreases j - i
  {
    if i < j { SpaceEndAt(s, i + 1, j); }
  }

  lemma {:induction false} SpaceStartAt(s: string, i: nat, j: nat)
    requires i <= j <= |s|
    requires forall k :: i <= k < j ==> IsSpace(s[k])
    requires i == 0 || !IsSpace(s[i - 1])
    ensures SpaceStart(s, j) == i
    decreases j - i
  {
    if i < j { SpaceStartAt(s, i, j - 1); }
  }

  /** What `strip()` removes is whitespace on both sides: `a` before the
      result and `b` after it. */
  lemma StripDecomposes(s: string) returns (a: string, b: string)
    ensures Padding(s, a, Strip(s), b)
  {
    var i := SpaceEnd(s, 0);
    var j := SpaceStart(s, |s|);
    if i < j {
      a, b := s[..i], s[j..];
      assert AllSpace(a) && AllSpace(b);
      assert s == a + s[i..j] + b;
    } else {
      forall k | 0 <= k < |s| ensures IsSpace(s[k]) {
        assert k < i || j <= k;
      }
      a, b := s, [];
      assert s == a + [] + b;
    }
  }

  /** Any whitespace-padded reading of `x` is what `strip()` yields. */
  lemma StripOfPadding(x: string, a: string, r: string, b: string)
    requires Padding(x, a, r, b)
    ensures Strip(x) == r
  {
    var e := |a| + |r|;
    assert forall k :: 0 <= k < |a| ==> x[k] == a[k];
    assert forall k :: |a| <= k < e ==> x[k] == r[k - |a|];
    assert forall k :: e <= k < |x| ==> x[k] == b[k - e];
    if r != [] {
      SpaceEndAt(x, 0, |a|);
      SpaceStartAt(x, e, |x|);
      assert x[|a|..e] == r;
    } else {
      SpaceEndAt(x, 0, |x|);
    }
  }

  /** There is only one way to strip a string: the trimmed infix is unique. */
  lemma PaddingUnique(x: string, a1: string, r1: string, b1: string, a2: string, r2: string, b2: string)
    requires Padding(x, a1, r1, b1) && Padding(x, a2, r2, b2)
    ensures r1 == r2
  {
    StripOfPadding(x, a1, r1, b1);
    StripOfPadding(x, a2, r2, b2);
  }

  lemma AllSpaceConcat(a: string, b: string)
    requires AllSpace(a) && AllSpace(b)
    ensures AllSpace(a + b)
  {
    assert forall k :: 0 <= k < |a + b| ==> (a + b)[k] == if k < |a| then a[k] else b[k - |a|];
  }

  /** Whitespace around a field never changes what `strip()` yields. */
  lemma StripPadded(a: string, s: string, b: string)
    requires AllSpace(a) && AllSpace(b)
    ensures Strip(a + s + b) == Strip(s)
  {
    var a', b' := StripDecomposes(s);
    var r := Strip(s);
    AllSpaceConcat(a, a');
    AllSpaceConcat(b', b);
    calc {
      a + s + b;
      a + (a' + r + b') + b;
      (a + a') + r + (b' + b);
    }
    StripOfPadding(a + s + b, a + a', r, b' + b);
  }

  /** `strip()` is idempotent. */
  lemma StripIdempotent(s: string)
    ensures Strip(Strip(s)) == Strip(s)
  {
    var r := Strip(s);
    assert r == [] + r + [];
    StripOfPadding(r, [], r, []);
  }

  predicate StartsWith(s: string, prefix: string) {
    |prefix| <= |s| && s[..|prefix|] == prefix
  }

  predicate EndsWith(s: string, suffix: string) {
    |suffix| <= |s| && s[|s| - |suffix|..] == suffix
  }

  /** `s.rfind(c)`: the index of the last `c` in `s`, or -1 when there is none. */
  function RFind(s: string, c: char): (r: int)
    ensures -1 <= r < |s|
    ensures r >= 0 ==> s[r] == c
    ensures forall j :: r < j < |s| ==> s[j] != c
  {
    if |s| == 0 then -1
    else if s[|s| - 1] == c then |s| - 1
    else RFind(s[..|s| - 1], c)
  }

  /** `posixpath.join(a, b)`: an absolute `b` replaces `a`; otherwise one
      separator is put between them unless `a` is empty or already ends in one. */
  function Join(a: string, b: string): (r: string)
    ensures StartsWith(b, "/") ==> r == b
    ensures !StartsWith(b, "/") ==> EndsWith(r, b) && StartsWith(r, a)
  {
    if StartsWith(b, "/") then b
    else if a == [] || EndsWith(a, "/") then a + b
    else a + "/" + b
  }

  /** Two relative last components joined onto the same directory give the
      same path only when they are the same component. */
  lemma JoinInjective(a: string, x: string, y: string)
    requires !StartsWith(x, "/") && !StartsWith(y, "/")
    requires Join(a, x) == Join(a, y)
    ensures x == y
  {
    var p := if a == [] || EndsWith(a, "/") then a else a + "/";
    assert Join(a, x) == p + x;
    assert Join(a, y) == p + y;
    assert x == (p + x)[|p|..];
    assert y == (p + y)[|p|..];
  }

  // ---- int(str) and str(int) ---------------------------------------------

  predicate IsDigit(c: char) { '0' <= c <= '9' }

  predicate IsDigits(s: string) {
    |s| > 0 && forall i :: 0 <= i < |s| ==> IsDigit(s[i])
  }

  function DigitValue(c: char): nat
    requires IsDigit(c)
  {
    (c as int) - ('0' as int)
  }

  function DigitChar(d: nat): (c: char)
    requires d < 10
    ensures IsDigit(c) && DigitValue(c) == d
  {
    (('0' as int) + d) as char
  }

  /** The value of a run of decimal digits, most significant first. */
  function DigitsValue(s: string): nat
    requires forall i :: 0 <= i < |s| ==> IsDigit(s[i])
  {
    if |s| == 0 then 0 else DigitsValue(s[..|s| - 1]) * 10 + DigitValue(s[|s| - 1])
  }

  /** `str(n)` for `n >= 0`: no leading zero, at least one digit. */
  function NatDecimal(n: nat): (r: string)
    ensures IsDigits(r)
    ensures r[0] != '0' || n == 0
  {
    if n < 10 then [DigitChar(n)] else NatDecimal(n / 10) + [DigitChar(n % 10)]
  }

  /** `str(n)` */
  function Decimal(n: int): (r: string)
    ensures |r| > 0 && !IsSpace(r[0]) && !IsSpace(r[|r| - 1])
  {
    if n < 0 then "-" + NatDecimal(-n) else NatDecimal(n)
  }

  /** `int(s)` in base 10: surrounding whitespace is ignored, an optional sign
      comes first, then at least one decimal digit; anything else is the
      `ValueError` case, `None` here. */
  function ParseInt(s: string): (r: Option<int>)
    ensures var t := Strip(s);
      r.Some? <==> IsDigits(t) || (|t| > 0 && (t[0] == '+' || t[0] == '-') && IsDigits(t[1..]))
    ensures var t := Strip(s);
      r.Some? && IsDigits(t) ==> r.value == DigitsValue(t)
    ensures var t := Strip(s);
      r.Some? && t[0] == '+' ==> r.value == DigitsValue(t[1..])
    ensures var t := Strip(s);
      r.Some? && t[0] == '-' ==> r.value == -(DigitsValue(t[1..]) as int)
  {
    var t := Strip(s);
    if |t| > 0 && (t[0] == '+' || t[0] == '-') then
      var d := t[1..];
      if IsDigits(d) then Some(if t[0] == '-' then -(DigitsValue(d) as int) else DigitsValue(d) as int) else None
    else if IsDigits(t) then Some(DigitsValue(t))
    else None
  }

  lemma {:induction false} NatDecimalValue(n: nat)
    ensures DigitsValue(NatDecimal(n)) == n
  {
    var s := NatDecimal(n);
    if n >= 10 {
      NatDecimalValue(n / 10);
      assert s[..|s| - 1] == NatDecimal(n / 10);
    }
  }

  /** `str(n)` has no surrounding whitespace to strip. */
  lemma StripDecimal(n: int)
    ensures Strip(Decimal(n)) == Decimal(n)
  {
    var s := Decimal(n);
    assert s == [] + s + [];
    StripOfPadding(s, [], s, []);
  }

  /** `int(str(n)) == n` */
  lemma ParseIntDecimal(n: int)
    ensures ParseInt(Decimal(n)) == Some(n)
  {
    var s := Decimal(n);
    StripDecimal(n);
    if n < 0 {
      assert s[1..] == NatDecimal(-n);
      NatDecimalValue(-n);
    } else {
      NatDecimalValue(n);
    }
  }
}
