/** The few Python `str` built-ins the patcher relies on: `isspace`,
    `rstrip`, `strip`, `splitlines`, `'\n'.join`, the `in` substring test
    and `str()` of an integer. Strings are sequences of Unicode scalar
    values. Python 3 strings may also hold lone surrogates, which `char`
    cannot represent; none of them is whitespace or a line boundary, so
    they would change nothing the patcher does. */
module PyStr {

  /** Characters for which Python's `str.isspace()` holds: the ones
      `strip()` and `rstrip()` remove when called without arguments. */
  predicate IsSpace(c: char) {
    c == ' ' || ('\t' <= c <= '\r') || ('\U{1C}' <= c <= '\U{1F}') ||
    c == '\U{85}' || c == '\U{A0}' || c == '\U{1680}' ||
    ('\U{2000}' <= c <= '\U{200A}') || c == '\U{2028}' || c == '\U{2029}' ||
    c == '\U{202F}' || c == '\U{205F}' || c == '\U{3000}'
  }

  /** Line boundaries recognised by `str.splitlines()`; `\r\n` counts as
      one boundary (see BreakWidth). */
  predicate IsLineBreak(c: char) {
    ('\n' <= c <= '\r') ||                // \n, \v, \f, \r
    ('\U{1C}' <= c <= '\U{1E}') ||        // file, group and record separators
    c == '\U{85}' ||                      // next line
    ('\U{2028}' <= c <= '\U{2029}')      // line and paragraph separators
  }

  predicate NoLineBreaks(s: string) {
    forall i | 0 <= i < |s| :: !IsLineBreak(s[i])
  }

  /** `s.rstrip()`: the longest prefix of `s` that does not end in
      whitespace; everything cut off is whitespace. */
  function RStrip(s: string): (r: string)
    ensures |r| <= |s| && r == s[..|r|]
    ensures r == [] || !IsSpace(r[|r| - 1])
    ensures forall i | |r| <= i < |s| :: IsSpace(s[i])
    decreases |s|
  {
    if |s| > 0 && IsSpace(s[|s| - 1]) then RStrip(s[..|s| - 1]) else s
  }

  /** `s.lstrip()`: the longest suffix of `s` that does not start with
      whitespace; everything cut off is whitespace. */
  function LStrip(s: string): (r: string)
    ensures |r| <= |s| && r == s[|s| - |r|..]
    ensures r == [] || !IsSpace(r[0])
    ensures forall i | 0 <= i < |s| - |r| :: IsSpace(s[i])
    decreases |s|
  {
    if |s| > 0 && IsSpace(s[0]) then LStrip(s[1..]) else s
  }

  /** `s.strip()`: empty exactly when `s` is all whitespace. */
  function Strip(s: string): (r: string)
    ensures r == [] <==> forall i | 0 <= i < |s| :: IsSpace(s[i])
  {
    LStrip(RStrip(s))
  }

  /** Right-stripping twice is right-stripping once. */
  lemma RStripIdempotent(s: string)
    ensures RStrip(RStrip(s)) == RStrip(s)
  {
  }

  /** A line that `rstrip` leaves unchanged is blank (its `strip()` is
      empty) exactly when it is empty. */
  lemma {:induction false} RStrippedBlankIffEmpty(s: string)
    requires RStrip(s) == s
    ensures Strip(s) == [] <==> s == []
  {
    if s != [] {
      assert !IsSpace(s[|s| - 1]);
    }
  }

  /** Whatever `rstrip` keeps is a prefix, so it has no line break the
      original did not have. */
  lemma RStripNoLineBreaks(s: string)
    requires NoLineBreaks(s)
    ensures NoLineBreaks(RStrip(s))
  {
    var r := RStrip(s);
    assert forall i | 0 <= i < |r| :: r[i] == s[i];
  }

  /** Index of the first line boundary of `s`, or `|s|` when there is none. */
  function FirstBreak(s: string): (k: nat)
    ensures k <= |s|
    ensures forall j | 0 <= j < k :: !IsLineBreak(s[j])
    ensures k < |s| ==> IsLineBreak(s[k])
  {
    if s == [] then 0
    else if IsLineBreak(s[0]) then 0
    else 1 + FirstBreak(s[1..])
  }

  /** Width of the boundary at `s[k]`: two for `\r\n`, one otherwise. */
  function BreakWidth(s: string, k: nat): (w: nat)
    requires k < |s|
    ensures 1 <= w && k + w <= |s|
  {
    if s[k] == '\r' && k + 1 < |s| && s[k + 1] == '\n' then 2 else 1
  }

  /** `s.splitlines()`: the pieces between line boundaries, with no
      trailing empty piece for a final boundary. */
  function SplitLines(s: string): (lines: seq<string>)
    ensures lines == [] <==> s == []
    ensures forall l | l in lines :: NoLineBreaks(l)
    decreases |s|
  {
    if s == [] then []
    else
      var k := FirstBreak(s);
      if k == |s| then [s]
      else [s[..k]] + SplitLines(s[k + BreakWidth(s, k)..])
  }

  /** `'\n'.join(lines)`. */
  function Join(lines: seq<string>): (r: string)
    ensures lines == [] ==> r == ""
    ensures lines != [] ==> |lines[0]| <= |r| && r[..|lines[0]|] == lines[0]
    ensures |lines| > 1 ==> |lines[0]| < |r| && r[|lines[0]|] == '\n'
  {
    if |lines| == 0 then ""
    else if |lines| == 1 then lines[0]
    else lines[0] + "\n" + Join(lines[1..])
  }

  /** A non-empty piece without line boundaries splits into itself. */
  lemma SplitLinesSingle(s: string)
    requires s != [] && NoLineBreaks(s)
    ensures SplitLines(s) == [s]
  {
    assert FirstBreak(s) == |s|;
  }

  /** A piece without line boundaries followed by `\n` splits off as the
      first line. */
  lemma SplitLinesCons(x: string, t: string)
    requires NoLineBreaks(x)
    ensures SplitLines(x + "\n" + t) == [x] + SplitLines(t)
  {
    var s := x + "\n" + t;
    assert forall j | 0 <= j < |x| :: s[j] == x[j];
    assert s[|x|] == '\n';
    assert FirstBreak(s) == |x|;
    assert BreakWidth(s, |x|) == 1;
    assert s[..|x|] == x;
    assert s[|x| + 1..] == t;
  }

  /** Joining with `\n` and splitting again gives the pieces back when no
      piece holds a line boundary and the last piece is not empty (an
      empty last piece would disappear as a trailing newline). */
  lemma {:induction false} SplitJoinRoundTrip(lines: seq<string>)
    requires forall l | l in lines :: NoLineBreaks(l)
    requires lines == [] || lines[|lines| - 1] != []
    ensures SplitLines(Join(lines)) == lines
    decreases |lines|
  {
    if |lines| == 1 {
      assert lines[0] in lines;
      SplitLinesSingle(lines[0]);
    } else if |lines| > 1 {
      var x, rest := lines[0], lines[1..];
      assert NoLineBreaks(x) by {
        assert x in lines;
      }
      assert forall l | l in rest :: NoLineBreaks(l) by {
        assert forall l | l in rest :: l in lines;
      }
      assert rest[|rest| - 1] != [] by {
        assert rest[|rest| - 1] == lines[|lines| - 1];
      }
      calc {
        SplitLines(Join(lines));
        SplitLines(x + "\n" + Join(rest));
        { SplitLinesCons(x, Join(rest)); }
        [x] + SplitLines(Join(rest));
        { SplitJoinRoundTrip(rest); }
        [x] + rest;
        lines;
      }
    }
  }

  /** Joining a concatenation: the two joins meet at one `\n`, unless one
      side is empty. */
  lemma {:induction false} JoinAppend(xs: seq<string>, ys: seq<string>)
    ensures Join(xs + ys) ==
      if xs == [] then Join(ys)
      else if ys == [] then Join(xs)
      else Join(xs) + "\n" + Join(ys)
    decreases |xs|
  {
    if xs == [] {
      assert xs + ys == ys;
    } else if ys == [] {
      assert xs + ys == xs;
    } else if |xs| == 1 {
      assert (xs + ys)[1..] == ys;
    } else {
      assert (xs + ys)[1..] == xs[1..] + ys;
      JoinAppend(xs[1..], ys);
    }
  }

  /** `sub` occurs in `s` starting at index `i`. */
  predicate OccursAt(s: string, sub: string, i: int) {
    0 <= i && i + |sub| <= |s| && s[i..i + |sub|] == sub
  }

  /** Python's `sub in s`. */
  predicate Contains(s: string, sub: string)
    ensures Contains(s, sub) ==> |sub| <= |s|
    ensures sub == [] ==> Contains(s, sub)
    ensures s == sub ==> Contains(s, sub)
  {
    assert sub == [] ==> OccursAt(s, sub, 0);
    assert s == sub ==> OccursAt(s, sub, 0);
    exists i | 0 <= i <= |s| - |sub| :: OccursAt(s, sub, i)
  }

  /** An occurrence inside a prefix is an occurrence in the whole string. */
  lemma ContainsFromPrefix(s: string, p: string, sub: string)
    requires |p| <= |s| && p == s[..|p|]
    requires Contains(p, sub)
    ensures Contains(s, sub)
  {
    var i :| 0 <= i <= |p| - |sub| && OccursAt(p, sub, i);
    assert s[i..i + |sub|] == p[i..i + |sub|];
    assert OccursAt(s, sub, i);
  }

  /** Every character of an occurring string is a character of the
      string it occurs in. */
  lemma ContainsChar(s: string, sub: string, j: nat)
    requires Contains(s, sub) && j < |sub|
    ensures exists k | 0 <= k < |s| :: s[k] == sub[j]
  {
    var i :| 0 <= i <= |s| - |sub| && OccursAt(s, sub, i);
    assert s[i + j] == s[i..i + |sub|][j];
  }

  function DigitChar(d: nat): (c: char)
    requires d < 10
    ensures '0' <= c <= '9' && c as int - '0' as int == d
  {
    ('0' as int + d) as char
  }

  predicate AllDigits(s: string) {
    forall i | 0 <= i < |s| :: '0' <= s[i] <= '9'
  }

  /** Decimal digits of a natural number, most significant first. */
  function Digits(n: nat): (r: string)
    ensures r != [] && forall c | c in r :: '0' <= c <= '9'
    ensures '0' <= r[0] <= '9' && AllDigits(r)
  {
    if n < 10 then [DigitChar(n)] else Digits(n / 10) + [DigitChar(n % 10)]
  }

  /** The number a string of decimal digits denotes, as `int()` reads it. */
  function DigitsValue(s: string): int
    requires AllDigits(s)
    decreases |s|
  {
    if s == [] then 0
    else DigitsValue(s[..|s| - 1]) * 10 + (s[|s| - 1] as int - '0' as int)
  }

  /** Reading the digits of `n` back gives `n`. */
  lemma {:induction false} DigitsRoundTrip(n: nat)
    ensures DigitsValue(Digits(n)) == n
  {
    if n >= 10 {
      var d := Digits(n);
      assert d[..|d| - 1] == Digits(n / 10);
      DigitsRoundTrip(n / 10);
    }
  }

  /** `str(n)` of a Python integer: a minus sign for negatives, then the
      digits of the magnitude. */
  function DecimalString(n: int): (r: string)
    ensures r != [] && forall c | c in r :: c == '-' || '0' <= c <= '9'
    ensures r[0] == '-' <==> n < 0
    ensures if n < 0 then AllDigits(r[1..]) else AllDigits(r)
  {
    if n < 0 then "-" + Digits(-n) else Digits(n)
  }

  /** `int(s)` for what `str()` of an integer produces. */
  function DecimalValue(s: string): int
    requires if s != [] && s[0] == '-' then AllDigits(s[1..]) else AllDigits(s)
  {
    if s != [] && s[0] == '-' then -DigitsValue(s[1..]) else DigitsValue(s)
  }

  /** `int(str(n)) == n`: the decimal rendering of a port loses nothing. */
  lemma DecimalRoundTrip(n: int)
    ensures DecimalValue(DecimalString(n)) == n
  {
    if n < 0 {
      assert DecimalString(n)[1..] == Digits(-n);
      DigitsRoundTrip(-n);
    } else {
      DigitsRoundTrip(n);
    }
  }
}
