/**
 * The Python `str` operations the modelled scripts rely on, with the edge cases
 * Python gives them: `strip()` with no argument, `splitlines()`, `startswith`,
 * `in` on strings, `replace`, `lower()` (ASCII letters only), the decimal
 * rendering of a number and `int(text)`.
 */
module Text {
  import opened Wrappers

  // ---------------------------------------------------------------------------
  // Whitespace and strip()

  /** The characters for which Python's `str.isspace()` is true. */
  predicate IsSpace(c: char) {
    c == ' ' || ('\t' <= c <= '\r') || ('\U{1c}' <= c <= '\U{1f}') || c == '\U{85}' || c == '\U{a0}'
    || c == '\U{1680}' || ('\U{2000}' <= c <= '\U{200a}') || c == '\U{2028}' || c == '\U{2029}'
    || c == '\U{202f}' || c == '\U{205f}' || c == '\U{3000}'
  }

  predicate AllSpace(s: string) {
    forall i :: 0 <= i < |s| ==> IsSpace(s[i])
  }

  function LStrip(s: string): string {
    if s != [] && IsSpace(s[0]) then LStrip(s[1..]) else s
  }

  /** `lstrip()` drops exactly the leading whitespace. */
  lemma {:induction false} LStripSpec(s: string)
    ensures var r := LStrip(s);
      |r| <= |s| && r == s[|s| - |r|..] && (r == [] || !IsSpace(r[0])) && AllSpace(s[..|s| - |r|])
  {
    if s != [] && IsSpace(s[0]) {
      LStripSpec(s[1..]);
      var r := LStrip(s);
      assert s[1..][..|s| - 1 - |r|] == s[1..|s| - |r|];
      assert s[1..][|s| - 1 - |r|..] == s[|s| - |r|..];
    } else {
      assert s[..0] == [];
    }
  }

  /** `lstrip()` never lengthens a string, and shortens one that starts with whitespace. */
  lemma {:induction false} LStripShortens(s: string)
    ensures |LStrip(s)| <= |s|
    ensures s != [] && IsSpace(s[0]) ==> |LStrip(s)| < |s|
  {
    if s != [] && IsSpace(s[0]) {
      LStripShortens(s[1..]);
    }
  }

  function RStrip(s: string): string {
    if s != [] && IsSpace(s[|s| - 1]) then RStrip(s[..|s| - 1]) else s
  }

  /** `rstrip()` drops exactly the trailing whitespace. */
  lemma {:induction false} RStripSpec(s: string)
    ensures var r := RStrip(s);
      |r| <= |s| && r == s[..|r|] && (r == [] || !IsSpace(r[|r| - 1])) && AllSpace(s[|r|..])
  {
    if s != [] && IsSpace(s[|s| - 1]) {
      RStripSpec(s[..|s| - 1]);
      var r := RStrip(s);
      assert s[..|s| - 1][..|r|] == s[..|r|];
      assert s[..|s| - 1][|r|..] == s[|r|..|s| - 1];
    } else {
      assert s[|s|..] == [];
    }
  }

  /** Python's `s.strip()`: whitespace removed at both ends, and only there. */
  function Strip(s: string): (r: string)
    ensures |r| <= |s|
    ensures r == [] || (!IsSpace(r[0]) && !IsSpace(r[|r| - 1]))
    ensures r == [] <==> AllSpace(s)
  {
    var l := LStrip(s);
    var r := RStrip(l);
    LStripSpec(s);
    RStripSpec(l);
    assert r == [] ==> AllSpace(s) by {
      if r == [] {
        assert l[|r|..] == l;
        assert l == [];
        assert s[..|s| - |l|] == s;
      }
    }
    r
  }

  // ---------------------------------------------------------------------------
  // Line boundaries and splitlines()

  /** The characters Python's `str.splitlines()` splits at ("\r\n" counts as one boundary). */
  predicate IsLineBreak(c: char) {
    c == '\n' || c == '\r' || c == '\U{b}' || c == '\U{c}' || c == '\U{1c}' || c == '\U{1d}'
    || c == '\U{1e}' || c == '\U{85}' || c == '\U{2028}' || c == '\U{2029}'
  }

  predicate NoBreak(s: string) {
    forall i :: 0 <= i < |s| ==> !IsLineBreak(s[i])
  }

  /** Lines as `splitlines()` gives them: none holds a line boundary. */
  predicate AllLines(xs: seq<string>) {
    forall k :: 0 <= k < |xs| ==> NoBreak(xs[k])
  }

  /** Index of the first line boundary in `s`, or `|s|` when there is none. */
  function FirstBreak(s: string): (i: nat)
    ensures i <= |s| && NoBreak(s[..i])
    ensures i < |s| ==> IsLineBreak(s[i])
  {
    if s == [] || IsLineBreak(s[0]) then 0
    else
      var j := FirstBreak(s[1..]);
      assert s[..1 + j] == [s[0]] + s[1..][..j];
      1 + j
  }

  /** Python's `s.splitlines()`: the lines without their terminators, no trailing empty line. */
  function SplitLines(s: string): (r: seq<string>)
    ensures AllLines(r)
    decreases |s|
  {
    if s == [] then []
    else
      var i := FirstBreak(s);
      if i == |s| then [s]
      else
        var w := if s[i] == '\r' && i + 1 < |s| && s[i + 1] == '\n' then 2 else 1;
        [s[..i]] + SplitLines(s[i + w..])
  }

  /** Python's `sep.join(xs)`. */
  function Join(xs: seq<string>, sep: string): string {
    if xs == [] then ""
    else if |xs| == 1 then xs[0]
    else xs[0] + sep + Join(xs[1..], sep)
  }

  lemma FirstBreakAfter(x: string, t: string)
    requires NoBreak(x)
    ensures FirstBreak(x + t) == |x| + FirstBreak(t)
    decreases |x|
  {
    if x != [] {
      assert (x + t)[1..] == x[1..] + t;
      FirstBreakAfter(x[1..], t);
    } else {
      assert x + t == t;
    }
  }

  lemma SplitLinesCons(x: string, rest: string)
    requires NoBreak(x)
    ensures SplitLines(x + "\n" + rest) == [x] + SplitLines(rest)
  {
    var s := x + "\n" + rest;
    assert s == x + ("\n" + rest);
    FirstBreakAfter(x, "\n" + rest);
    assert s[..|x|] == x;
    assert s[|x| + 1..] == rest;
  }

  /** A text without line breaks is one line. */
  lemma SplitLinesSingle(s: string)
    requires s != [] && NoBreak(s)
    ensures SplitLines(s) == [s]
  {
    FirstBreakAfter(s, "");
    assert s + "" == s;
  }

  /**
   * Writing lines out with `"\n".join(xs) + "\n"` and splitting the text again
   * gives the lines back; no lines at all come back as one empty line.
   */
  lemma {:induction false} SplitLinesOfJoined(xs: seq<string>)
    requires AllLines(xs)
    ensures SplitLines(Join(xs, "\n") + "\n") == if xs == [] then [""] else xs
  {
    if xs == [] {
      SplitLinesCons("", "");
      assert "" + "\n" + "" == Join(xs, "\n") + "\n";
    } else if |xs| == 1 {
      SplitLinesCons(xs[0], "");
      assert xs[0] + "\n" + "" == Join(xs, "\n") + "\n";
    } else {
      var rest := Join(xs[1..], "\n") + "\n";
      SplitLinesCons(xs[0], rest);
      assert xs[0] + "\n" + rest == Join(xs, "\n") + "\n";
      assert AllLines(xs[1..]) by {
        forall k | 0 <= k < |xs[1..]|
          ensures NoBreak(xs[1..][k])
        {
          assert xs[1..][k] == xs[k + 1];
        }
      }
      SplitLinesOfJoined(xs[1..]);
      assert xs == [xs[0]] + xs[1..];
    }
  }

  // ---------------------------------------------------------------------------
  // Prefixes, substrings and replace()

  /** Python's `s.startswith(p)`. */
  predicate StartsWith(s: string, p: string) {
    |p| <= |s| && s[..|p|] == p
  }

  /** Python's `s.startswith(ps)` for a tuple of prefixes: any of them (an empty tuple never matches). */
  predicate StartsWithAny(s: string, ps: seq<string>) {
    exists k :: 0 <= k < |ps| && StartsWith(s, ps[k])
  }

  /** Python's `sub in s` (for a non-empty `sub`). */
  predicate Contains(s: string, sub: string)
    decreases |s|
  {
    StartsWith(s, sub) || (s != [] && Contains(s[1..], sub))
  }

  /** Python's `s.replace(pat, rep)`: every non-overlapping occurrence, left to right. */
  function Replace(s: string, pat: string, rep: string): string
    requires pat != []
    decreases |s|
  {
    if StartsWith(s, pat) then rep + Replace(s[|pat|..], pat, rep)
    else if s == [] then []
    else [s[0]] + Replace(s[1..], pat, rep)
  }

  lemma ReplaceLength(s: string, pat: string, rep: string)
    requires pat != []
    ensures |rep| >= |pat| ==> |Replace(s, pat, rep)| >= |s|
    ensures |rep| <= |pat| ==> |Replace(s, pat, rep)| <= |s|
    decreases |s|
  {
    if StartsWith(s, pat) {
      ReplaceLength(s[|pat|..], pat, rep);
    } else if s != [] {
      ReplaceLength(s[1..], pat, rep);
    }
  }

  /** `replace` leaves a text without an occurrence of `pat` as it is ... */
  lemma {:induction false} ReplaceAbsent(s: string, pat: string, rep: string)
    requires pat != [] && !Contains(s, pat)
    ensures Replace(s, pat, rep) == s
    decreases |s|
  {
    if s != [] {
      ReplaceAbsent(s[1..], pat, rep);
      assert s == [s[0]] + s[1..];
    }
  }

  /** ... and changes every text that has one, as long as `rep` differs from `pat`. */
  lemma {:induction false} ReplacePresent(s: string, pat: string, rep: string)
    requires pat != [] && pat != rep && Contains(s, pat)
    ensures Replace(s, pat, rep) != s
    decreases |s|
  {
    var r := Replace(s, pat, rep);
    if StartsWith(s, pat) {
      var rest := s[|pat|..];
      assert r == rep + Replace(rest, pat, rep);
      assert s == pat + rest;
      ReplaceLength(rest, pat, rep);
      if |rep| == |pat| {
        assert r[..|rep|] == rep;
        assert s[..|pat|] == pat;
      } else {
        assert |r| != |s|;
      }
    } else {
      ReplacePresent(s[1..], pat, rep);
      assert r == [s[0]] + Replace(s[1..], pat, rep);
      assert r[1..] == Replace(s[1..], pat, rep);
    }
  }

  /** A replacement longer than the pattern lengthens every text that has an occurrence. */
  lemma {:induction false} ReplaceGrows(s: string, pat: string, rep: string)
    requires pat != [] && |rep| > |pat| && Contains(s, pat)
    ensures |Replace(s, pat, rep)| > |s|
    decreases |s|
  {
    if StartsWith(s, pat) {
      ReplaceLength(s[|pat|..], pat, rep);
    } else {
      ReplaceGrows(s[1..], pat, rep);
    }
  }

  // ---------------------------------------------------------------------------
  // Characters, case and splitting at a character

  function LowerChar(c: char): char {
    if 'A' <= c <= 'Z' then (c as int + 32) as char else c
  }

  /** Python's `s.lower()`, restricted to the ASCII letters. */
  function Lower(s: string): (r: string)
    ensures |r| == |s|
    ensures forall i :: 0 <= i < |s| ==> r[i] == LowerChar(s[i])
  {
    seq(|s|, i requires 0 <= i < |s| => LowerChar(s[i]))
  }

  /** Python's `s.replace(a, b)` for two single characters. */
  function ReplaceChar(s: string, a: char, b: char): (r: string)
    ensures |r| == |s|
    ensures forall i :: 0 <= i < |s| ==> r[i] == (if s[i] == a then b else s[i])
  {
    seq(|s|, i requires 0 <= i < |s| => if s[i] == a then b else s[i])
  }

  lemma ReplaceCharAbsent(s: string, a: char, b: char)
    requires a !in s
    ensures ReplaceChar(s, a, b) == s
  {
  }

  /** The part of `s` before the first character that `stop` accepts (all of `s` if none does). */
  function PrefixBefore(s: string, stop: char -> bool): (r: string)
    ensures |r| <= |s| && r == s[..|r|]
    ensures forall i :: 0 <= i < |r| ==> !stop(r[i])
    ensures |r| < |s| ==> stop(s[|r|])
  {
    if s == [] || stop(s[0]) then []
    else
      var t := PrefixBefore(s[1..], stop);
      assert [s[0]] + t == s[..1 + |t|];
      [s[0]] + t
  }

  /** The prefix ends at the first character `stop` accepts. */
  lemma PrefixBeforeAt(s: string, stop: char -> bool, i: nat)
    requires i <= |s| && (forall j :: 0 <= j < i ==> !stop(s[j])) && (i < |s| ==> stop(s[i]))
    ensures PrefixBefore(s, stop) == s[..i]
  {
  }

  /** A prefix free of stop characters, followed by a stop character or nothing, is the prefix. */
  lemma PrefixBeforeConcat(p: string, t: string, stop: char -> bool)
    requires (forall j :: 0 <= j < |p| ==> !stop(p[j])) && (t != [] ==> stop(t[0]))
    ensures PrefixBefore(p + t, stop) == p
  {
    PrefixBeforeAt(p + t, stop, |p|);
    assert (p + t)[..|p|] == p;
  }

  /** Python's `s.split(c)[-1]`: the part after the last `c` (all of `s` if there is none). */
  function AfterLast(s: string, c: char): string {
    if s == [] || s[|s| - 1] == c then []
    else AfterLast(s[..|s| - 1], c) + [s[|s| - 1]]
  }

  /** The part after the last `c` is a suffix without `c`, preceded by `c` unless it is all of `s`. */
  lemma {:induction false} AfterLastSpec(s: string, c: char)
    ensures var r := AfterLast(s, c);
      |r| <= |s| && r == s[|s| - |r|..] && c !in r && (|r| < |s| ==> s[|s| - |r| - 1] == c)
  {
    if s != [] && s[|s| - 1] != c {
      var t := AfterLast(s[..|s| - 1], c);
      AfterLastSpec(s[..|s| - 1], c);
      assert t + [s[|s| - 1]] == s[|s| - |t| - 1..];
    }
  }

  /** The part after the last separator of `p + [c] + sub` is `sub` when `sub` has no separator. */
  lemma {:induction false} AfterLastAppend(p: string, c: char, sub: string)
    requires c !in sub
    ensures AfterLast(p + [c] + sub, c) == sub
    decreases |sub|
  {
    var s := p + [c] + sub;
    if sub != [] {
      var init := sub[..|sub| - 1];
      assert s[..|s| - 1] == p + [c] + init;
      AfterLastAppend(p, c, init);
      assert sub == init + [sub[|sub| - 1]];
    }
  }

  // ---------------------------------------------------------------------------
  // Numbers as text: "%d" and int()

  predicate IsDigit(c: char) {
    '0' <= c <= '9'
  }

  function DigitValue(c: char): nat
    requires IsDigit(c)
  {
    c as int - '0' as int
  }

  function DigitChar(d: nat): (c: char)
    requires d < 10
    ensures IsDigit(c)
  {
    ('0' as int + d) as char
  }

  /** The decimal rendering of a natural number, as `"%d"` writes it. */
  function NatToString(n: nat): (r: string)
    ensures r != [] && forall i :: 0 <= i < |r| ==> IsDigit(r[i])
  {
    if n < 10 then [DigitChar(n)] else NatToString(n / 10) + [DigitChar(n % 10)]
  }

  /** The decimal rendering of an integer, as Python's `str(n)` writes it. */
  function IntToString(n: int): string {
    if n < 0 then "-" + NatToString(-n) else NatToString(n)
  }

  /** A digit string as `int()` accepts it: digits, each `_` between two digits. */
  predicate WellFormedDigits(t: string) {
    && t != []
    && IsDigit(t[0]) && IsDigit(t[|t| - 1])
    && (forall i :: 0 <= i < |t| ==> IsDigit(t[i]) || t[i] == '_')
    && (forall i :: 0 <= i < |t| - 1 ==> !(t[i] == '_' && t[i + 1] == '_'))
  }

  /** The value of the digits of `t`, underscores skipped. */
  function DigitsValue(t: string): nat
    requires forall i :: 0 <= i < |t| ==> IsDigit(t[i]) || t[i] == '_'
  {
    if t == [] then 0
    else if t[|t| - 1] == '_' then DigitsValue(t[..|t| - 1])
    else DigitsValue(t[..|t| - 1]) * 10 + DigitValue(t[|t| - 1])
  }

  /**
   * Python's `int(text)`: surrounding whitespace ignored, an optional sign,
   * then decimal digits; `None` where Python raises `ValueError`.
   */
  function ParseInt(s: string): Option<int> {
    ParseStripped(Strip(s))
  }

  /** `int()` after the whitespace is gone. */
  function ParseStripped(t: string): Option<int> {
    var signed := t != [] && (t[0] == '+' || t[0] == '-');
    var digits := if signed then t[1..] else t;
    if !WellFormedDigits(digits) then None
    else
      var v: int := DigitsValue(digits);
      if signed && t[0] == '-' then Some(-v) else Some(v)
  }

  lemma StripUnspaced(s: string)
    requires s != [] && !IsSpace(s[0]) && !IsSpace(s[|s| - 1])
    ensures Strip(s) == s
  {
    assert LStrip(s) == s;
    assert RStrip(s) == s;
  }

  /** Stripping twice is stripping once. */
  lemma StripIdempotent(s: string)
    ensures Strip(Strip(s)) == Strip(s)
  {
    if Strip(s) != [] {
      StripUnspaced(Strip(s));
    }
  }

  lemma {:induction false} DigitsValueOfNat(n: nat)
    ensures WellFormedDigits(NatToString(n)) && DigitsValue(NatToString(n)) == n
  {
    var r := NatToString(n);
    if n >= 10 {
      DigitsValueOfNat(n / 10);
      var p := NatToString(n / 10);
      assert r == p + [DigitChar(n % 10)];
      assert r[..|r| - 1] == p;
    }
  }

  lemma ParseIntUnsigned(t: string)
    requires WellFormedDigits(t)
    ensures ParseStripped(t) == Some(DigitsValue(t) as int)
  {
    assert IsDigit(t[0]);
  }

  lemma ParseIntNegative(d: string)
    requires WellFormedDigits(d)
    ensures ParseStripped("-" + d) == Some(-(DigitsValue(d) as int))
  {
    assert ("-" + d)[1..] == d;
  }

  /** `int()` reads back what `str()` writes. */
  lemma ParseIntOfIntToString(n: int)
    ensures ParseInt(IntToString(n)) == Some(n)
  {
    var m: nat := if n < 0 then -n else n;
    var d := NatToString(m);
    DigitsValueOfNat(m);
    assert !IsSpace(d[0]) && !IsSpace(d[|d| - 1]);
    if n < 0 {
      StripUnspaced("-" + d);
      ParseIntNegative(d);
    } else {
      StripUnspaced(d);
      ParseIntUnsigned(d);
    }
  }
}
