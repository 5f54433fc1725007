/**
 The few Python string operations the chatbot relies on: `str.lower`,
 `str.strip`, the substring test `p in s`, `str.startswith`,
 `s.split(" ", 1)` and the decimal rendering of an `int` in an f-string.
 */
module Text {

  /** The characters Python's `str.isspace` accepts, which is what
      `str.strip()` with no argument removes from both ends. */
  predicate IsSpace(c: char) {
    || c == ' '
    || ('\U{9}' <= c <= '\U{D}')
    || ('\U{1C}' <= c <= '\U{1F}')
    || c == '\U{85}' || c == '\U{A0}' || c == '\U{1680}'
    || ('\U{2000}' <= c <= '\U{200A}')
    || c == '\U{2028}' || c == '\U{2029}' || c == '\U{202F}' || c == '\U{205F}'
    || c == '\U{3000}'
  }

  /** Lower-casing of one character (ASCII letters only). */
  function LowerChar(c: char): char {
    if 'A' <= c <= 'Z' then (c as int + 32) as char else c
  }

  /** `s.lower()` */
  function Lower(s: string): string {
    seq(|s|, i requires 0 <= i < |s| => LowerChar(s[i]))
  }

  lemma LowerAppend(a: string, b: string)
    ensures Lower(a + b) == Lower(a) + Lower(b)
  {
    assert forall i :: 0 <= i < |a + b| ==> Lower(a + b)[i] == (Lower(a) + Lower(b))[i];
  }

  /** `p` occurs in `s` starting at index `i`. */
  predicate OccursAt(p: string, s: string, i: nat) {
    i + |p| <= |s| && s[i..i + |p|] == p
  }

  /** Python's `p in s` for two strings. */
  predicate IsSubstring(p: string, s: string) {
    exists i: nat :: i <= |s| && OccursAt(p, s, i)
  }

  /** `s.startswith(prefix)` */
  predicate StartsWith(s: string, prefix: string) {
    |prefix| <= |s| && s[..|prefix|] == prefix
  }

  lemma SubstringTransitive(p: string, q: string, s: string)
    requires IsSubstring(p, q) && IsSubstring(q, s)
    ensures IsSubstring(p, s)
  {
    var i: nat :| i <= |q| && OccursAt(p, q, i);
    var j: nat :| j <= |s| && OccursAt(q, s, j);
    forall k | 0 <= k < |p| ensures s[j + i + k] == p[k] {
      assert q[i + k] == p[k];
      assert s[j + (i + k)] == q[i + k];
    }
    assert s[j + i..j + i + |p|] == p;
    assert OccursAt(p, s, j + i);
  }

  lemma SubstringWidened(p: string, s: string, before: string, after: string)
    requires IsSubstring(p, s)
    ensures IsSubstring(p, before + s + after)
  {
    var i: nat :| i <= |s| && OccursAt(p, s, i);
    var t := before + s + after;
    forall k | 0 <= k < |p| ensures t[|before| + i + k] == p[k] {
      assert s[i + k] == p[k];
    }
    assert t[|before| + i..|before| + i + |p|] == p;
    assert OccursAt(p, t, |before| + i);
  }

  lemma SubstringOfShorter(p: string, s: string)
    requires |s| < |p|
    ensures !IsSubstring(p, s)
  {
  }

  lemma SubstringOfEqualLength(p: string, s: string)
    requires |s| == |p|
    ensures IsSubstring(p, s) <==> p == s
  {
    if p == s {
      assert OccursAt(p, s, 0);
    }
  }

  /** Index of the first character of `s` that is not a space (|s| if none). */
  function StripStart(s: string): (i: nat)
    ensures i <= |s|
    ensures forall m :: 0 <= m < i ==> IsSpace(s[m])
    ensures i < |s| ==> !IsSpace(s[i])
  {
    if |s| == 0 || !IsSpace(s[0]) then 0 else 1 + StripStart(s[1..])
  }

  /** One past the index of the last character of `s` that is not a space
      (0 if none). */
  function StripEnd(s: string): (j: nat)
    ensures j <= |s|
    ensures forall m :: j <= m < |s| ==> IsSpace(s[m])
    ensures 0 < j ==> !IsSpace(s[j - 1])
  {
    if |s| == 0 || !IsSpace(s[|s| - 1]) then |s| else StripEnd(s[..|s| - 1])
  }

  /** `s.strip()`: `s` without its leading and trailing spaces. The result
      is the piece of `s` between two runs of spaces, it is empty exactly
      when `s` is all spaces, and otherwise it starts and ends with a
      character that is not a space. */
  function Strip(s: string): (r: string)
    ensures r == [] <==> forall m :: 0 <= m < |s| ==> IsSpace(s[m])
    ensures r != [] ==> !IsSpace(r[0]) && !IsSpace(r[|r| - 1])
    ensures exists i: nat :: i <= |s| && StripsTo(s, r, i)
  {
    var i, j := StripStart(s), StripEnd(s);
    if j <= i then
      assert i == |s| by {
        if i < |s| {
          assert false;
        }
      }
      assert StripsTo(s, [], 0);
      []
    else
      assert StripsTo(s, s[i..j], i);
      s[i..j]
  }

  /** `r` is `s` with a run of spaces removed from each end, the first
      run ending at index `i`. */
  predicate StripsTo(s: string, r: string, i: nat) {
    && i + |r| <= |s|
    && s[i..i + |r|] == r
    && (forall m :: 0 <= m < i ==> IsSpace(s[m]))
    && (forall m :: i + |r| <= m < |s| ==> IsSpace(s[m]))
  }

  /** A string that `Strip` leaves alone: non-empty, with no space at
      either end. */
  predicate Trimmed(p: string) {
    p != [] && !IsSpace(p[0]) && !IsSpace(p[|p| - 1])
  }

  /** Stripping spaces off `s` changes nothing about which trimmed strings
      occur in it. */
  lemma SubstringOfStrip(p: string, s: string)
    requires Trimmed(p)
    ensures IsSubstring(p, Strip(s)) <==> IsSubstring(p, s)
  {
    if IsSubstring(p, Strip(s)) {
      SubstringOfStripped(p, s);
    }
    if IsSubstring(p, s) {
      SubstringInStripped(p, s);
    }
  }

  lemma SubstringOfStripped(p: string, s: string)
    requires IsSubstring(p, Strip(s))
    ensures IsSubstring(p, s)
  {
    var r := Strip(s);
    var i: nat :| i <= |s| && StripsTo(s, r, i);
    SliceSplit(s, i, i + |r|);
    SubstringWidened(p, s[i..i + |r|], s[..i], s[i + |r|..]);
  }

  lemma SliceSplit<T>(s: seq<T>, i: nat, j: nat)
    requires i <= j <= |s|
    ensures s == s[..i] + s[i..j] + s[j..]
  {
  }

  lemma SubstringInStripped(p: string, s: string)
    requires Trimmed(p) && IsSubstring(p, s)
    ensures IsSubstring(p, Strip(s))
  {
    var r := Strip(s);
    var i: nat :| i <= |s| && StripsTo(s, r, i);
    var k: nat :| k <= |s| && OccursAt(p, s, k);
    assert s[k] == p[0];
    assert s[k + |p| - 1] == p[|p| - 1];
    assert i <= k;
    assert k + |p| <= i + |r|;
    forall m | 0 <= m < |p| ensures r[k - i + m] == p[m] {
      assert s[k + m] == p[m];
      assert r[k - i + m] == s[i + (k - i + m)];
    }
    assert r[k - i..k - i + |p|] == p;
    assert OccursAt(p, r, k - i);
  }

  /** Spaces in front of a string that starts with a non-space are exactly
      what `StripStart` skips. */
  lemma {:induction false} StripStartAfterSpaces(spaces: string, rest: string)
    requires forall m :: 0 <= m < |spaces| ==> IsSpace(spaces[m])
    requires rest != [] && !IsSpace(rest[0])
    ensures StripStart(spaces + rest) == |spaces|
  {
    if spaces != [] {
      assert (spaces + rest)[1..] == spaces[1..] + rest;
      StripStartAfterSpaces(spaces[1..], rest);
    }
  }

  /** Spaces after a string that ends with a non-space are exactly what
      `StripEnd` drops. */
  lemma {:induction false} StripEndBeforeSpaces(rest: string, spaces: string)
    requires forall m :: 0 <= m < |spaces| ==> IsSpace(spaces[m])
    requires rest != [] && !IsSpace(rest[|rest| - 1])
    ensures StripEnd(rest + spaces) == |rest|
  {
    if spaces != [] {
      var t := rest + spaces;
      assert t[..|t| - 1] == rest + spaces[..|spaces| - 1];
      StripEndBeforeSpaces(rest, spaces[..|spaces| - 1]);
    } else {
      assert rest + spaces == rest;
    }
  }

  /** Stripping a trimmed string padded with spaces gives it back. */
  lemma StripPadded(before: string, p: string, after: string)
    requires forall m :: 0 <= m < |before| ==> IsSpace(before[m])
    requires forall m :: 0 <= m < |after| ==> IsSpace(after[m])
    requires Trimmed(p)
    ensures Strip(before + p + after) == p
  {
    var s := before + p + after;
    assert before + p + after == before + (p + after);
    StripStartAfterSpaces(before, p + after);
    StripEndBeforeSpaces(before + p, after);
    assert s[|before|..|before| + |p|] == p;
  }

  /** A trimmed string is its own strip. */
  lemma StripTrimmed(p: string)
    requires Trimmed(p)
    ensures Strip(p) == p
  {
    StripPadded([], p, []);
    assert [] + p + [] == p;
  }

  /** What follows the first space of `s`, or "" when `s` has no space:
      Python's `s.split(" ", 1)[1] if " " in s else ""`. */
  function AfterFirstSpace(s: string): (r: string)
    ensures ' ' !in s ==> r == ""
    ensures ' ' in s ==> exists i :: 0 <= i < |s| && s[i] == ' ' && ' ' !in s[..i] && r == s[i + 1..]
  {
    if s == [] then ""
    else if s[0] == ' ' then
      assert ' ' !in s[..0];
      s[1..]
    else
      var r := AfterFirstSpace(s[1..]);
      assert s == [s[0]] + s[1..];
      if ' ' in s[1..] then
        var i :| 0 <= i < |s[1..]| && s[1..][i] == ' ' && ' ' !in s[1..][..i] && r == s[1..][i + 1..];
        assert s[..i + 1] == [s[0]] + s[1..][..i];
        assert s[i + 2..] == s[1..][i + 1..];
        r
      else
        r
  }

  /** The value of a decimal digit. */
  function DigitValue(c: char): nat {
    if '0' <= c <= '9' then c as int - 48 else 0
  }

  /** The number a string of decimal digits stands for. */
  function DigitsValue(s: string): nat {
    if s == [] then 0 else 10 * DigitsValue(s[..|s| - 1]) + DigitValue(s[|s| - 1])
  }

  /** The decimal digits of `n`, as Python's `str(n)` writes them: digits
      that stand for `n`, with no leading zero. */
  function NatToString(n: nat): (r: string)
    ensures |r| >= 1
    ensures n < 10 <==> |r| == 1
    ensures forall k :: 0 <= k < |r| ==> '0' <= r[k] <= '9'
    ensures DigitsValue(r) == n
    ensures n > 0 ==> r[0] != '0'
  {
    if n < 10 then [(48 + n) as char]
    else
      var prefix := NatToString(n / 10);
      var r := prefix + [(48 + n % 10) as char];
      assert r[..|r| - 1] == prefix;
      r
  }

  /** `str(i)` for a Python `int`: a minus sign before the digits of a
      negative number. */
  function IntToString(i: int): (r: string)
    ensures |r| >= 1
    ensures i < 0 ==> |r| >= 2 && r[0] == '-' && r[1] != '0' && DigitsValue(r[1..]) == -i
    ensures i < 0 ==> forall k :: 1 <= k < |r| ==> '0' <= r[k] <= '9'
    ensures i >= 0 ==> DigitsValue(r) == i && forall k :: 0 <= k < |r| ==> '0' <= r[k] <= '9'
    ensures i > 0 ==> r[0] != '0'
    ensures i == 0 ==> r == "0"
  {
    if i < 0 then
      var r := "-" + NatToString(-i);
      assert r[1..] == NatToString(-i);
      r
    else NatToString(i)
  }

  lemma {:induction false} NatToStringInjective(a: nat, b: nat)
    requires NatToString(a) == NatToString(b)
    ensures a == b
  {
    var s := NatToString(a);
    if a >= 10 {
      assert b >= 10;
      assert s[|s| - 1] == (48 + a % 10) as char == (48 + b % 10) as char;
      assert NatToString(a / 10) == s[..|s| - 1] == NatToString(b / 10);
      NatToStringInjective(a / 10, b / 10);
    } else {
      assert s[0] == (48 + a) as char == (48 + b) as char;
    }
  }

  /** Different integers are written differently. */
  lemma IntToStringInjective(a: int, b: int)
    requires IntToString(a) == IntToString(b)
    ensures a == b
  {
    var s := IntToString(a);
    if a < 0 {
      assert s[0] == '-';
      assert b < 0;
      assert NatToString(-a) == s[1..] == NatToString(-b);
      NatToStringInjective(-a, -b);
    } else {
      assert '0' <= s[0];
      assert b >= 0;
      NatToStringInjective(a, b);
    }
  }
}
