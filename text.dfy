/**
 * The few pieces of Python's text handling that the client relies on:
 * `str.strip()`, `readlines()` on a text file, the `in` operator on
 * strings and `int()` on a decimal string.
 */
module Text {
  import opened Wrappers

  /** The characters for which Python's `str.isspace()` holds; `strip()` removes exactly these. */
  predicate IsSpace(c: char) {
    || c == ' '
    || ('\t' <= c <= '\r')
    || ('\U{1C}' <= c <= '\U{1F}')
    || c == '\U{85}'
    || c == '\U{A0}'
    || c == '\U{1680}'
    || ('\U{2000}' <= c <= '\U{200A}')
    || c == '\U{2028}'
    || c == '\U{2029}'
    || c == '\U{202F}'
    || c == '\U{205F}'
    || c == '\U{3000}'
  }

  predicate AllSpace(s: string) {
    forall i :: 0 <= i < |s| ==> IsSpace(s[i])
  }

  /** The index of the first non-whitespace character of `s` at or after `i`, or `|s|` when there is none. */
  function SkipSpace(s: string, i: nat): (a: nat)
    requires i <= |s|
    decreases |s| - i
    ensures i <= a <= |s|
    ensures forall k :: i <= k < a ==> IsSpace(s[k])
    ensures a == |s| || !IsSpace(s[a])
  {
    if i < |s| && IsSpace(s[i]) then SkipSpace(s, i + 1) else i
  }

  /** The index just past the last non-whitespace character of `s[lo..j]`, or `lo` when there is none. */
  function SkipSpaceBack(s: string, lo: nat, j: nat): (b: nat)
    requires lo <= j <= |s|
    decreases j
    ensures lo <= b <= j
    ensures forall k :: b <= k < j ==> IsSpace(s[k])
    ensures b == lo || !IsSpace(s[b - 1])
  {
    if j > lo && IsSpace(s[j - 1]) then SkipSpaceBack(s, lo, j - 1) else j
  }

  /** `s.strip()`: empty exactly for an all-whitespace string, and otherwise free of whitespace at both ends. */
  function Strip(s: string): (r: string)
    ensures r == [] <==> AllSpace(s)
    ensures r == [] || (!IsSpace(r[0]) && !IsSpace(r[|r| - 1]))
  {
    var a := SkipSpace(s, 0);
    var b := SkipSpaceBack(s, a, |s|);
    s[a..b]
  }

  /** `s.strip()` cuts a slice out of `s` with only whitespace before and after it. */
  lemma StripIsSlice(s: string)
    ensures var r := Strip(s);
      exists i :: 0 <= i <= |s| - |r| && r == s[i..i + |r|] && AllSpace(s[..i]) && AllSpace(s[i + |r|..])
  {
    var a := SkipSpace(s, 0);
    var b := SkipSpaceBack(s, a, |s|);
    forall k | 0 <= k < a ensures IsSpace(s[..a][k]) { assert s[..a][k] == s[k]; }
    forall k | 0 <= k < |s| - b ensures IsSpace(s[b..][k]) { assert s[b..][k] == s[b + k]; }
    assert Strip(s) == s[a..a + (b - a)];
  }

  lemma SkipSpaceUnique(s: string, i: nat, a: nat)
    requires i <= a <= |s|
    requires forall k :: i <= k < a ==> IsSpace(s[k])
    requires a == |s| || !IsSpace(s[a])
    ensures SkipSpace(s, i) == a
  {
  }

  lemma SkipSpaceBackUnique(s: string, lo: nat, j: nat, b: nat)
    requires lo <= b <= j <= |s|
    requires forall k :: b <= k < j ==> IsSpace(s[k])
    requires b == lo || !IsSpace(s[b - 1])
    ensures SkipSpaceBack(s, lo, j) == b
  {
  }

  /** Skipping forward never looks at an appended character when it stops inside `u`. */
  lemma {:induction false} SkipSpaceAppend(u: string, c: char, i: nat)
    requires i <= |u| && SkipSpace(u, i) < |u|
    ensures SkipSpace(u + [c], i) == SkipSpace(u, i)
    decreases |u| - i
  {
    assert (u + [c])[i] == u[i];
    if IsSpace(u[i]) {
      SkipSpaceAppend(u, c, i + 1);
    }
  }

  /** Skipping backward from inside `u` never looks at an appended character. */
  lemma {:induction false} SkipSpaceBackAppend(u: string, c: char, lo: nat, j: nat)
    requires lo <= j <= |u|
    ensures SkipSpaceBack(u + [c], lo, j) == SkipSpaceBack(u, lo, j)
    decreases j
  {
    if j > lo {
      assert (u + [c])[j - 1] == u[j - 1];
      SkipSpaceBackAppend(u, c, lo, j - 1);
    }
  }

  /** Whitespace appended at the end is stripped away again. */
  lemma StripSpaceSuffix(u: string, c: char)
    requires IsSpace(c)
    ensures Strip(u + [c]) == Strip(u)
  {
    var v := u + [c];
    var a := SkipSpace(u, 0);
    if a == |u| {
      assert AllSpace(u);
      assert AllSpace(v) by {
        forall k | 0 <= k < |v| ensures IsSpace(v[k]) {
          if k < |u| { assert v[k] == u[k]; }
        }
      }
    } else {
      SkipSpaceAppend(u, c, 0);
      assert v[|v| - 1] == c;
      assert SkipSpaceBack(v, a, |v|) == SkipSpaceBack(v, a, |u|);
      SkipSpaceBackAppend(u, c, a, |u|);
      var b := SkipSpaceBack(u, a, |u|);
      assert v[a..b] == u[a..b];
    }
  }

  /**
   * Python's test `len(f.read().strip()) > 0` on a file that may be absent
   * (`None`): the file exists and holds a character other than whitespace.
   */
  predicate NonBlank(stored: Option<string>)
    ensures NonBlank(stored) <==> stored.Some? && exists i :: 0 <= i < |stored.value| && !IsSpace(stored.value[i])
  {
    stored.Some? && Strip(stored.value) != []
  }

  /** Index of the first newline of `s`, or `|s|` when there is none. */
  function NewlineIndex(s: string): (n: nat)
    ensures n <= |s|
    ensures n < |s| ==> s[n] == '\n'
    ensures forall i :: 0 <= i < n ==> s[i] != '\n'
  {
    if s == [] || s[0] == '\n' then 0 else 1 + NewlineIndex(s[1..])
  }

  function Concat(ls: seq<string>): string {
    if ls == [] then [] else ls[0] + Concat(ls[1..])
  }

  /** A line as `readlines()` yields it: non-empty, with a newline at most at its end. */
  predicate IsLine(l: string) {
    l != [] && forall j :: 0 <= j < |l| - 1 ==> l[j] != '\n'
  }

  predicate EndsWithNewline(l: string) {
    l != [] && l[|l| - 1] == '\n'
  }

  /**
   * `f.readlines()` on a file holding `s`: the lines, each keeping its
   * newline; the last one has none when `s` does not end in a newline.
   */
  function Lines(s: string): (ls: seq<string>)
    decreases |s|
    ensures Concat(ls) == s
    ensures forall i :: 0 <= i < |ls| ==> IsLine(ls[i])
    ensures forall i :: 0 <= i < |ls| - 1 ==> EndsWithNewline(ls[i])
  {
    if s == [] then []
    else
      var n := NewlineIndex(s);
      if n == |s| then [s]
      else
        var rest := Lines(s[n + 1..]);
        assert s[..n + 1] + s[n + 1..] == s;
        [s[..n + 1]] + rest
  }

  /** A newline-free first line is read off as itself with its newline, followed by the lines of the rest. */
  lemma LinesOfHead(u: string, t: string)
    requires '\n' !in u
    ensures Lines(u + "\n" + t) == [u + "\n"] + Lines(t)
  {
    var s := u + "\n" + t;
    assert s[|u|] == '\n';
    forall i | 0 <= i < |u| ensures s[i] != '\n' {
      assert s[i] == u[i];
    }
    assert NewlineIndex(s) == |u|;
    assert s[..|u| + 1] == u + "\n";
    assert s[|u| + 1..] == t;
  }

  /** Two newline-free pieces joined by a newline read back as two lines, or one when the second is empty. */
  lemma LinesOfJoin(u: string, p: string)
    requires '\n' !in u && '\n' !in p
    ensures p != [] ==> Lines(u + "\n" + p) == [u + "\n", p]
    ensures p == [] ==> Lines(u + "\n" + p) == [u + "\n"]
  {
    LinesOfHead(u, p);
    if p != [] {
      assert NewlineIndex(p) == |p|;
    }
  }

  /** `part` occurs in `s` starting at index `i`. */
  predicate OccursAt(s: string, part: string, i: int) {
    0 <= i <= |s| - |part| && s[i..i + |part|] == part
  }

  /** Python's `part in s` on strings. */
  function Contains(s: string, part: string): (b: bool)
    decreases |s|
    ensures b <==> exists i :: OccursAt(s, part, i)
  {
    if |s| < |part| then false
    else if s[..|part|] == part then assert OccursAt(s, part, 0); true
    else
      var b := Contains(s[1..], part);
      assert b ==> exists i :: OccursAt(s, part, i) by {
        if b {
          var j :| OccursAt(s[1..], part, j);
          assert s[j + 1..j + 1 + |part|] == s[1..][j..j + |part|];
          assert OccursAt(s, part, j + 1);
        }
      }
      assert (exists i :: OccursAt(s, part, i)) ==> b by {
        if exists i :: OccursAt(s, part, i) {
          var i :| OccursAt(s, part, i);
          assert i != 0;
          assert s[1..][i - 1..i - 1 + |part|] == s[i..i + |part|];
          assert OccursAt(s[1..], part, i - 1);
        }
      }
      b
  }

  predicate IsDigit(c: char) {
    '0' <= c <= '9'
  }

  /** The digits Python's `int()` accepts after the sign: ASCII digits, single underscores only between two digits. */
  predicate IsDigitRun(d: string) {
    && d != []
    && IsDigit(d[0])
    && IsDigit(d[|d| - 1])
    && (forall i :: 0 <= i < |d| ==> IsDigit(d[i]) || d[i] == '_')
    && (forall i :: 0 <= i < |d| - 1 ==> d[i] == '_' ==> d[i + 1] != '_')
  }

  /** The decimal value of the digits of `d`, underscores skipped. */
  function DigitsValue(d: string): nat {
    if d == [] then 0
    else if IsDigit(d[|d| - 1]) then 10 * DigitsValue(d[..|d| - 1]) + (d[|d| - 1] as int - '0' as int)
    else DigitsValue(d[..|d| - 1])
  }

  /** Python's `int(s)` for a decimal string: `None` where it raises `ValueError`. */
  function ParseInt(s: string): (r: Option<int>)
    ensures r.Some? ==> exists i :: 0 <= i < |s| && IsDigit(s[i])
    ensures r.Some? && r.value < 0 ==> Strip(s)[0] == '-'
    ensures IsDigitRun(Strip(s)) ==> r == Some(DigitsValue(Strip(s)))
  {
    var t := Strip(s);
    if t != [] && (t[0] == '-' || t[0] == '+') then
      var d := t[1..];
      if IsDigitRun(d) then
        assert IsDigit(t[1]);
        var v: int := DigitsValue(d);
        Some(if t[0] == '-' then -v else v)
      else None
    else if IsDigitRun(t) then
      assert IsDigit(t[0]);
      Some(DigitsValue(t))
    else None
  }

  /** `str(n)` for a natural number. */
  function Decimal(n: nat): (s: string)
    decreases n
  {
    if n < 10 then [('0' as int + n) as char]
    else Decimal(n / 10) + [('0' as int + n % 10) as char]
  }

  lemma {:induction false} DecimalDigits(n: nat)
    ensures Decimal(n) != []
    ensures forall i :: 0 <= i < |Decimal(n)| ==> IsDigit(Decimal(n)[i])
    ensures DigitsValue(Decimal(n)) == n
  {
    if n >= 10 {
      DecimalDigits(n / 10);
      var x := Decimal(n / 10);
      var c := ('0' as int + n % 10) as char;
      assert (x + [c])[..|x + [c]| - 1] == x;
    }
  }

  /** Stripping changes nothing when there is no whitespace at either end. */
  lemma StripUnchanged(d: string)
    requires d == [] || (!IsSpace(d[0]) && !IsSpace(d[|d| - 1]))
    ensures Strip(d) == d
  {
    SkipSpaceUnique(d, 0, 0);
    SkipSpaceBackUnique(d, 0, |d|, |d|);
    assert d[0..|d|] == d;
  }

  /** Python's `int()` reads a run of plain digits followed by a newline as the value of those digits. */
  lemma ParseDigitsLine(d: string)
    requires d != [] && forall i :: 0 <= i < |d| ==> IsDigit(d[i])
    ensures ParseInt(d + "\n") == Some(DigitsValue(d))
  {
    assert IsDigit(d[0]) && IsDigit(d[|d| - 1]);
    StripUnchanged(d);
    StripSpaceSuffix(d, '\n');
    assert IsDigitRun(d);
  }

  /** What `int(...)` reads back from the output line `str(n) + "\n"` (as `wc -l` prints it) is `n`. */
  lemma ParseIntDecimalLine(n: nat)
    ensures ParseInt(Decimal(n) + "\n") == Some(n)
  {
    DecimalDigits(n);
    ParseDigitsLine(Decimal(n));
  }
}
