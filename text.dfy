/** String operations the source uses from its languages' standard libraries:
    lower-casing, `startsWith`, the last dot-separated segment, trimming of
    whitespace, `join` and the decimal rendering of an integer. */
module Text {

  /** The language whose whitespace rule a trim follows. */
  datatype Runtime = JavaScript | Python

  /** The ASCII characters JavaScript's `trim` removes: space, tab, line feed,
      vertical tab, form feed and carriage return. Python's `strip` removes
      these and also the four separators U+001C to U+001F, which
      `str.isspace` counts as whitespace. */
  predicate IsSpace(c: char, rt: Runtime)
  {
    || c == ' ' || c == '\t' || c == '\n' || c == '\r' || c == '\U{B}' || c == '\U{C}'
    || (rt == Python && '\U{1C}' <= c <= '\U{1F}')
  }

  function LowerChar(c: char): char
  {
    if 'A' <= c <= 'Z' then (c as int - 'A' as int + 'a' as int) as char else c
  }

  function Lower(s: string): string
  {
    seq(|s|, i requires 0 <= i < |s| => LowerChar(s[i]))
  }

  predicate StartsWith(s: string, prefix: string)
  {
    |prefix| <= |s| && s[..|prefix|] == prefix
  }

  /** The text after the last '.' of `s`, or all of `s` when it has no dot: the
      last element of `s.split('.')` in JavaScript and of `s.rsplit('.', 1)` in
      Python. */
  function AfterLastDot(s: string): (r: string)
    ensures |r| <= |s|
  {
    if s == [] || s[|s| - 1] == '.' then []
    else AfterLastDot(s[..|s| - 1]) + [s[|s| - 1]]
  }

  /** `AfterLastDot` is the longest dot-free suffix of `s`. */
  lemma {:induction false} AfterLastDotFacts(s: string)
    ensures var r := AfterLastDot(s);
      && '.' !in r
      && r == s[|s| - |r|..]
      && (|r| < |s| ==> s[|s| - |r| - 1] == '.')
  {
    if s != [] && s[|s| - 1] != '.' {
      var init := s[..|s| - 1];
      AfterLastDotFacts(init);
      var r := AfterLastDot(s);
      assert init[|init| - |r| + 1..] + [s[|s| - 1]] == s[|s| - |r|..];
    }
  }

  /** A name without a dot is its own last segment. */
  lemma AfterLastDotOfUndotted(s: string)
    requires '.' !in s
    ensures AfterLastDot(s) == s
  {
    AfterLastDotFacts(s);
  }

  /** A dot-free suffix after a dot is what `AfterLastDot` returns. */
  lemma {:induction false} AfterLastDotOfDotted(base: string, ext: string)
    requires '.' !in ext
    ensures AfterLastDot(base + "." + ext) == ext
  {
    var s := base + "." + ext;
    if ext == [] {
      assert s[|s| - 1] == '.';
    } else {
      var init := ext[..|ext| - 1];
      assert s[..|s| - 1] == base + "." + init;
      assert s[|s| - 1] == ext[|ext| - 1];
      AfterLastDotOfDotted(base, init);
      assert ext == init + [ext[|ext| - 1]];
    }
  }

  /** Drops leading whitespace. */
  function TrimStart(s: string, rt: Runtime): (r: string)
    ensures |r| <= |s|
  {
    if s != [] && IsSpace(s[0], rt) then TrimStart(s[1..], rt) else s
  }

  /** `TrimStart` keeps a suffix that starts with a non-space, after only
      spaces. */
  lemma {:induction false} TrimStartFacts(s: string, rt: Runtime)
    ensures var r := TrimStart(s, rt);
      && r == s[|s| - |r|..]
      && (r != [] ==> !IsSpace(r[0], rt))
      && (forall i :: 0 <= i < |s| - |r| ==> IsSpace(s[i], rt))
  {
    if s != [] && IsSpace(s[0], rt) {
      TrimStartFacts(s[1..], rt);
    }
  }

  /** Drops trailing whitespace. */
  function TrimEnd(s: string, rt: Runtime): (r: string)
    ensures |r| <= |s|
  {
    if s != [] && IsSpace(s[|s| - 1], rt) then TrimEnd(s[..|s| - 1], rt) else s
  }

  /** `TrimEnd` keeps a prefix that ends with a non-space, before only
      spaces. */
  lemma {:induction false} TrimEndFacts(s: string, rt: Runtime)
    ensures var r := TrimEnd(s, rt);
      && r == s[..|r|]
      && (r != [] ==> !IsSpace(r[|r| - 1], rt))
      && (forall i :: |r| <= i < |s| ==> IsSpace(s[i], rt))
  {
    if s != [] && IsSpace(s[|s| - 1], rt) {
      TrimEndFacts(s[..|s| - 1], rt);
    }
  }

  /** JavaScript's `trim()` or Python's `strip()`, on ASCII whitespace. */
  function Strip(s: string, rt: Runtime): (r: string)
    ensures |r| <= |s|
  {
    TrimEnd(TrimStart(s, rt), rt)
  }

  /** The stripped text is empty exactly when the text is all whitespace, and
      otherwise starts and ends with a non-space. */
  lemma StripFacts(s: string, rt: Runtime)
    ensures Strip(s, rt) == [] <==> forall i :: 0 <= i < |s| ==> IsSpace(s[i], rt)
    ensures Strip(s, rt) != [] ==> !IsSpace(Strip(s, rt)[0], rt) && !IsSpace(Strip(s, rt)[|Strip(s, rt)| - 1], rt)
  {
    var t := TrimStart(s, rt);
    var r := TrimEnd(t, rt);
    TrimStartFacts(s, rt);
    TrimEndFacts(t, rt);
    if r == [] {
      assert t == [];
    } else {
      assert r[0] == t[0];
      var k := |s| - |t| + |r| - 1;
      assert s[k] == t[|r| - 1] == r[|r| - 1];
    }
  }

  /** The stripped text is the middle of `s`: what lies before `i` and from
      `j` on is whitespace only. */
  lemma StripIsSlice(s: string, rt: Runtime) returns (i: nat, j: nat)
    ensures i <= j <= |s| && Strip(s, rt) == s[i..j]
    ensures forall k :: 0 <= k < i ==> IsSpace(s[k], rt)
    ensures forall k :: j <= k < |s| ==> IsSpace(s[k], rt)
  {
    var t := TrimStart(s, rt);
    TrimStartFacts(s, rt);
    TrimEndFacts(t, rt);
    i := |s| - |t|;
    j := i + |TrimEnd(t, rt)|;
    assert forall k :: j <= k < |s| ==> s[k] == t[k - i];
  }

  /** Every character JavaScript trims Python strips too, and the record
      separator U+001E shows the difference: Python strips it and JavaScript
      keeps it. */
  lemma StripRuntimesDiffer(c: char)
    ensures IsSpace(c, JavaScript) ==> IsSpace(c, Python)
    ensures Strip(['\U{1E}'], Python) == [] && Strip(['\U{1E}'], JavaScript) == ['\U{1E}']
  {
    assert TrimStart(['\U{1E}'], Python) == TrimStart([], Python);
  }

  /** `sep.join(parts)` in Python, `parts.join(sep)` in JavaScript. */
  function Join(parts: seq<string>, sep: string): string
  {
    if parts == [] then []
    else if |parts| == 1 then parts[0]
    else parts[0] + sep + Join(parts[1..], sep)
  }

  function DigitChar(d: nat): char
    requires d < 10
  {
    ('0' as int + d) as char
  }

  predicate IsDigit(c: char)
  {
    '0' <= c <= '9'
  }

  /** The decimal rendering of `n`, as `${n}` and `str(n)` produce it. */
  function NatToString(n: nat): (r: string)
    ensures r != []
  {
    if n < 10 then [DigitChar(n)] else NatToString(n / 10) + [DigitChar(n % 10)]
  }

  /** The rendering is made of digits only. */
  lemma {:induction false} NatToStringDigits(n: nat)
    ensures forall i :: 0 <= i < |NatToString(n)| ==> IsDigit(NatToString(n)[i])
  {
    if n >= 10 {
      NatToStringDigits(n / 10);
    }
  }

  function IntToString(n: int): (r: string)
    ensures r != []
  {
    if n < 0 then "-" + NatToString(-n) else NatToString(n)
  }

  /** The value of a string of decimal digits. */
  function DigitsValue(s: string): int
  {
    if s == [] then 0
    else 10 * DigitsValue(s[..|s| - 1]) + (s[|s| - 1] as int - '0' as int)
  }

  /** Reading the decimal rendering back gives the number: the rendering is
      injective. */
  lemma {:induction false} NatToStringRoundTrip(n: nat)
    ensures DigitsValue(NatToString(n)) == n
  {
    var r := NatToString(n);
    if n >= 10 {
      NatToStringRoundTrip(n / 10);
      assert r[..|r| - 1] == NatToString(n / 10);
    }
  }

  /** The rendering of an integer starts with a minus sign exactly when the
      integer is negative, and the rest is the rendering of its magnitude. */
  lemma IntToStringSign(n: int)
    ensures IntToString(n)[0] == '-' <==> n < 0
    ensures n < 0 ==> IntToString(n)[1..] == NatToString(-n)
    ensures n >= 0 ==> IntToString(n) == NatToString(n)
  {
    if n >= 0 {
      NatToStringDigits(n);
      assert IsDigit(NatToString(n)[0]);
    } else {
      assert ("-" + NatToString(-n))[1..] == NatToString(-n);
    }
  }

  lemma IntToStringInjective(a: int, b: int)
    requires IntToString(a) == IntToString(b)
    ensures a == b
  {
    IntToStringSign(a);
    IntToStringSign(b);
    var m, n: nat := if a < 0 then -a else a, if b < 0 then -b else b;
    assert NatToString(m) == NatToString(n);
    NatToStringRoundTrip(m);
    NatToStringRoundTrip(n);
    assert m == n;
  }
}
