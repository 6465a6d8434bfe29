/**
 * The handful of Python `str` operations the application relies on, stated
 * over `string` (= `seq<char>`): `strip()`, `split(sep)`, `split()`,
 * `sep.join(...)`, `startswith`, `in`, `lower()`, `title()`, `replace`,
 * `isdigit()`, `int(...)` and `str(int)`.  Character classes follow ASCII
 * (`\d`, `\w`, letters); whitespace follows Python's `str.isspace()`.
 */
module Text {

  // ---------------------------------------------------------------------
  // Character classes
  // ---------------------------------------------------------------------

  /** Python's `str.isspace()` on one character (the characters `strip()` and `split()` treat as whitespace). */
  predicate IsSpace(c: char) {
    ('\t' <= c <= '\r') || ('\U{1C}' <= c <= '\U{1F}') || c == ' ' || c == '\U{85}' || c == '\U{A0}'
    || c == '\U{1680}' || ('\U{2000}' <= c <= '\U{200A}') || c == '\U{2028}' || c == '\U{2029}'
    || c == '\U{202F}' || c == '\U{205F}' || c == '\U{3000}'
  }

  /** Regex `\d` (ASCII). */
  predicate IsDigit(c: char) { '0' <= c <= '9' }

  predicate IsUpper(c: char) { 'A' <= c <= 'Z' }

  predicate IsLower(c: char) { 'a' <= c <= 'z' }

  /** Regex `[a-zA-Z]`. */
  predicate IsLetter(c: char) { IsUpper(c) || IsLower(c) }

  /** Regex `\w` (ASCII): letters, digits and underscore. */
  predicate IsWordChar(c: char) { IsLetter(c) || IsDigit(c) || c == '_' }

  /** Every character of `s` is in the class `p`. */
  predicate All(s: string, p: char -> bool) {
    forall i :: 0 <= i < |s| ==> p(s[i])
  }

  /** A non-empty run of ASCII digits: the text `\d+` matches in full. */
  predicate IsDigits(s: string) {
    |s| > 0 && All(s, IsDigit)
  }

  /**
   * The end of the longest run of characters in class `p` that starts at `i`:
   * what a greedy `p*` consumes from position `i`.
   */
  function SkipWhile(s: string, i: nat, p: char -> bool): (j: nat)
    requires i <= |s|
    ensures i <= j <= |s|
    ensures forall t :: i <= t < j ==> p(s[t])
    ensures j == |s| || !p(s[j])
    decreases |s| - i
  {
    if i == |s| || !p(s[i]) then i else SkipWhile(s, i + 1, p)
  }

  /** `[f(x) for x in xs]`. */
  function Map<A, B>(f: A -> B, xs: seq<A>): (ys: seq<B>)
    ensures |ys| == |xs|
    ensures forall i :: 0 <= i < |xs| ==> ys[i] == f(xs[i])
  {
    seq(|xs|, i requires 0 <= i < |xs| => f(xs[i]))
  }

  lemma MapSnoc<A, B>(f: A -> B, xs: seq<A>)
    requires |xs| > 0
    ensures Map(f, xs) == Map(f, xs[..|xs| - 1]) + [f(xs[|xs| - 1])]
  {
    var init := xs[..|xs| - 1];
    assert forall i :: 0 <= i < |init| ==> init[i] == xs[i];
  }

  /** Every character of `s[a..b]` is in class `p`. */
  lemma SliceAll(s: string, a: nat, b: nat, p: char -> bool)
    requires a <= b <= |s| && forall t :: a <= t < b ==> p(s[t])
    ensures All(s[a..b], p)
  {
    assert forall t :: 0 <= t < b - a ==> s[a..b][t] == s[a + t];
  }

  /** A run that ends where the class stops is exactly what `SkipWhile` finds. */
  lemma {:induction false} SkipWhileExact(s: string, i: nat, j: nat, p: char -> bool)
    requires i <= j <= |s|
    requires forall t :: i <= t < j ==> p(s[t])
    requires j == |s| || !p(s[j])
    ensures SkipWhile(s, i, p) == j
    decreases j - i
  {
    if i < j {
      SkipWhileExact(s, i + 1, j, p);
    }
  }

  /** A run of class `p` placed at `i` in `s`, followed by the end or a character outside `p`, is what `SkipWhile` finds. */
  lemma SkipRun(s: string, i: nat, run: string, p: char -> bool)
    requires i + |run| <= |s| && s[i..i + |run|] == run && All(run, p)
    requires i + |run| == |s| || !p(s[i + |run|])
    ensures SkipWhile(s, i, p) == i + |run|
  {
    assert forall t :: i <= t < i + |run| ==> s[t] == run[t - i];
    SkipWhileExact(s, i, i + |run|, p);
  }

  /** The start of the longest run of characters in class `p` that ends at `e`. */
  function SkipBackWhile(s: string, e: nat, p: char -> bool): (d: nat)
    requires e <= |s|
    ensures d <= e
    ensures forall t :: d <= t < e ==> p(s[t])
    ensures d == 0 || !p(s[d - 1])
    decreases e
  {
    if e == 0 || !p(s[e - 1]) then e else SkipBackWhile(s, e - 1, p)
  }

  /** A run that starts where the class stops is exactly what `SkipBackWhile` finds. */
  lemma {:induction false} SkipBackWhileExact(s: string, d: nat, e: nat, p: char -> bool)
    requires d <= e <= |s|
    requires forall t :: d <= t < e ==> p(s[t])
    requires d == 0 || !p(s[d - 1])
    ensures SkipBackWhile(s, e, p) == d
    decreases e - d
  {
    if d < e {
      SkipBackWhileExact(s, d, e - 1, p);
    }
  }

  // ---------------------------------------------------------------------
  // strip()
  // ---------------------------------------------------------------------

  /** `s.lstrip()`: drops the leading whitespace. */
  function StripLeft(s: string): (r: string)
    ensures |r| <= |s| && r == s[|s| - |r|..]
    ensures forall i :: 0 <= i < |s| - |r| ==> IsSpace(s[i])
    ensures r == [] || !IsSpace(r[0])
  {
    if |s| > 0 && IsSpace(s[0]) then StripLeft(s[1..]) else s
  }

  /** `s.rstrip()`: drops the trailing whitespace. */
  function StripRight(s: string): (r: string)
    ensures |r| <= |s| && r == s[..|r|]
    ensures forall i :: |r| <= i < |s| ==> IsSpace(s[i])
    ensures r == [] || !IsSpace(r[|r| - 1])
  {
    if |s| > 0 && IsSpace(s[|s| - 1]) then StripRight(s[..|s| - 1]) else s
  }

  /** `s.strip()`. */
  function Strip(s: string): (r: string)
    ensures |r| <= |s|
    ensures r == [] || (!IsSpace(r[0]) && !IsSpace(r[|r| - 1]))
  {
    StripRight(StripLeft(s))
  }

  /** A string that neither starts nor ends with whitespace is its own `strip()`. */
  lemma StripFixed(s: string)
    requires s == [] || (!IsSpace(s[0]) && !IsSpace(s[|s| - 1]))
    ensures Strip(s) == s
  {
  }

  /** `strip()` is idempotent. */
  lemma StripIdempotent(s: string)
    ensures Strip(Strip(s)) == Strip(s)
  {
    StripFixed(Strip(s));
  }

  /** `strip()` removes exactly the whitespace around a text that starts and ends with a non-space. */
  lemma StripSurrounded(pre: string, s: string, post: string)
    requires All(pre, IsSpace) && All(post, IsSpace)
    requires |s| > 0 && !IsSpace(s[0]) && !IsSpace(s[|s| - 1])
    ensures Strip(pre + s + post) == s
  {
    var t := s + post;
    assert t[0] == s[0];
    StripLeftSpaces(pre, t);
    assert pre + s + post == pre + t;
    StripRightSpaces(s, post);
  }

  /** `strip()` of nothing but whitespace is empty. */
  lemma {:induction false} StripAllSpace(s: string)
    requires All(s, IsSpace)
    ensures Strip(s) == ""
    decreases |s|
  {
    if |s| > 0 {
      StripAllSpace(s[1..]);
    }
  }

  lemma {:induction false} StripLeftSpaces(pre: string, s: string)
    requires All(pre, IsSpace)
    requires s == [] || !IsSpace(s[0])
    ensures StripLeft(pre + s) == s
    decreases |pre|
  {
    if |pre| > 0 {
      assert (pre + s)[1..] == pre[1..] + s;
      StripLeftSpaces(pre[1..], s);
    } else {
      assert pre + s == s;
    }
  }

  lemma {:induction false} StripRightSpaces(s: string, post: string)
    requires All(post, IsSpace)
    requires s == [] || !IsSpace(s[|s| - 1])
    ensures StripRight(s + post) == s
    decreases |post|
  {
    if |post| > 0 {
      assert (s + post)[..|s + post| - 1] == s + post[..|post| - 1];
      StripRightSpaces(s, post[..|post| - 1]);
    } else {
      assert s + post == s;
    }
  }

  /** The result of `strip()` never ends with a newline (so a regex `$` can only match at its very end). */
  lemma StripNoTrailingNewline(s: string)
    ensures Strip(s) == [] || Strip(s)[|Strip(s)| - 1] != '\n'
  {
  }

  // ---------------------------------------------------------------------
  // startswith, in
  // ---------------------------------------------------------------------

  /** `s.startswith(p)`. */
  predicate StartsWith(s: string, p: string) {
    |p| <= |s| && s[..|p|] == p
  }

  /** A text cannot start with a prefix whose first character differs from its own. */
  lemma FirstCharRulesOut(s: string, p: string)
    requires |s| > 0 && |p| > 0 && s[0] != p[0]
    ensures !StartsWith(s, p)
  {
    if |p| <= |s| {
      assert s[..|p|][0] == s[0];
    }
  }

  /** `sub in s`, scanning left to right. */
  predicate Contains(s: string, sub: string)
    decreases |s|
  {
    StartsWith(s, sub) || (|s| > 0 && Contains(s[1..], sub))
  }

  /** `c in s` for a single character. */
  predicate HasChar(s: string, c: char) {
    exists i :: 0 <= i < |s| && s[i] == c
  }

  /** `sub` occurs in `s` starting at index `i`. */
  predicate OccursAt(s: string, sub: string, i: nat) {
    i + |sub| <= |s| && s[i..i + |sub|] == sub
  }

  /** An occurrence anywhere makes `sub in s` true. */
  lemma {:induction false} ContainsAt(s: string, sub: string, i: nat)
    requires OccursAt(s, sub, i)
    ensures Contains(s, sub)
  {
    if i > 0 {
      assert s[1..][i - 1..i - 1 + |sub|] == s[i..i + |sub|];
      ContainsAt(s[1..], sub, i - 1);
    }
  }

  /** `sub in s` only when `sub` occurs at some index of `s`. */
  lemma {:induction false} ContainsOccurs(s: string, sub: string)
    requires Contains(s, sub)
    ensures exists i: nat :: OccursAt(s, sub, i)
    decreases |s|
  {
    if StartsWith(s, sub) {
      assert OccursAt(s, sub, 0);
    } else {
      ContainsOccurs(s[1..], sub);
      var i: nat :| OccursAt(s[1..], sub, i);
      assert s[1..][i..i + |sub|] == s[i + 1..i + 1 + |sub|];
      assert OccursAt(s, sub, i + 1);
    }
  }

  /** A string in which `a` is never directly followed by `b` does not contain `[a, b]`. */
  lemma {:induction false} NotContainsPair(s: string, a: char, b: char)
    requires forall i :: 0 <= i < |s| - 1 ==> !(s[i] == a && s[i + 1] == b)
    ensures !Contains(s, [a, b])
    decreases |s|
  {
    if |s| >= 2 {
      assert s[..2] == [s[0], s[1]];
    }
    if |s| > 0 {
      assert forall i :: 0 <= i < |s| - 1 ==> s[1..][i] == s[i + 1];
      NotContainsPair(s[1..], a, b);
    }
  }

  /** A string none of whose characters is `c` does not contain `[c]`. */
  lemma {:induction false} NotContainsChar(s: string, c: char)
    requires forall i :: 0 <= i < |s| ==> s[i] != c
    ensures !Contains(s, [c])
    decreases |s|
  {
    if |s| > 0 {
      assert s[..1] == [s[0]];
      assert forall i :: 0 <= i < |s| - 1 ==> s[1..][i] == s[i + 1];
      NotContainsChar(s[1..], c);
    }
  }

  /** A string of characters in class `p` does not contain a character outside it. */
  lemma NotContainsOutside(s: string, p: char -> bool, c: char)
    requires All(s, p) && !p(c)
    ensures !Contains(s, [c])
  {
    NotContainsChar(s, c);
  }

  /** Whatever contains `p + q` contains `p`. */
  lemma {:induction false} ContainsLonger(s: string, p: string, q: string)
    ensures Contains(s, p + q) ==> Contains(s, p)
    decreases |s|
  {
    if StartsWith(s, p + q) {
      assert s[..|p|] == (p + q)[..|p|];
    }
    if |s| > 0 {
      ContainsLonger(s[1..], p, q);
    }
  }

  // ---------------------------------------------------------------------
  // split(sep), sep.join(parts), split()
  // ---------------------------------------------------------------------

  /** `s.split(sep)` for a one-character separator: always at least one part; empty parts kept. */
  function Split(s: string, sep: char): (parts: seq<string>)
    ensures |parts| >= 1
    ensures forall k :: 0 <= k < |parts| ==> !HasChar(parts[k], sep)
    decreases |s|
  {
    if |s| == 0 then [""]
    else
      var rest := Split(s[1..], sep);
      if s[0] == sep then [""] + rest
      else [[s[0]] + rest[0]] + rest[1..]
  }

  /** `sep.join(parts)`. */
  function Join(parts: seq<string>, sep: char): (s: string)
  {
    if |parts| == 0 then ""
    else if |parts| == 1 then parts[0]
    else parts[0] + [sep] + Join(parts[1..], sep)
  }

  /** `sep.join(parts)` for a separator of any length. */
  function JoinWith(parts: seq<string>, sep: string): (s: string)
    decreases |parts|
  {
    if |parts| == 0 then ""
    else if |parts| == 1 then parts[0]
    else parts[0] + sep + JoinWith(parts[1..], sep)
  }

  /** Joining two non-empty lists one after the other puts one separator between them. */
  lemma {:induction false} JoinWithAppend(a: seq<string>, b: seq<string>, sep: string)
    requires |a| > 0 && |b| > 0
    ensures JoinWith(a + b, sep) == JoinWith(a, sep) + sep + JoinWith(b, sep)
    decreases |a|
  {
    if |a| > 1 {
      JoinWithAppend(a[1..], b, sep);
      assert (a + b)[1..] == a[1..] + b;
    } else {
      assert (a + b)[1..] == b;
    }
  }

  /** Every joined part is found in the joined text. */
  lemma {:induction false} JoinWithContains(parts: seq<string>, sep: string, i: nat)
    requires i < |parts|
    ensures Contains(JoinWith(parts, sep), parts[i])
    decreases |parts|
  {
    var s := JoinWith(parts, sep);
    if |parts| == 1 {
      assert OccursAt(s, parts[i], 0);
      ContainsAt(s, parts[i], 0);
    } else if i == 0 {
      assert s[..|parts[0]|] == parts[0];
      assert OccursAt(s, parts[0], 0);
      ContainsAt(s, parts[0], 0);
    } else {
      JoinWithContains(parts[1..], sep, i - 1);
      ContainsSuffix(parts[0] + sep, JoinWith(parts[1..], sep), parts[i]);
    }
  }

  /** Whatever a suffix contains, the whole string contains. */
  lemma ContainsSuffix(pre: string, s: string, sub: string)
    requires Contains(s, sub)
    ensures Contains(pre + s, sub)
  {
    ContainsOccurs(s, sub);
    var i: nat :| OccursAt(s, sub, i);
    assert (pre + s)[|pre| + i..|pre| + i + |sub|] == s[i..i + |sub|];
    ContainsAt(pre + s, sub, |pre| + i);
  }

  /** Joining the parts of a split with the same separator gives back the string. */
  lemma {:induction false} JoinSplit(s: string, sep: char)
    ensures Join(Split(s, sep), sep) == s
    decreases |s|
  {
    if |s| > 0 {
      JoinSplit(s[1..], sep);
      var rest := Split(s[1..], sep);
      if s[0] == sep {
        assert Split(s, sep) == [""] + rest;
        assert s == [sep] + s[1..];
      } else {
        assert Split(s, sep) == [[s[0]] + rest[0]] + rest[1..];
        if |rest| == 1 {
          assert s == [s[0]] + rest[0];
        } else {
          assert Join(rest, sep) == rest[0] + [sep] + Join(rest[1..], sep);
          assert s == [s[0]] + s[1..];
        }
      }
    }
  }

  /** A string without the separator is a single part. */
  lemma {:induction false} SplitNoSep(s: string, sep: char)
    requires !HasChar(s, sep)
    ensures Split(s, sep) == [s]
    decreases |s|
  {
    if |s| > 0 {
      assert s[0] != sep;
      assert forall i :: 0 <= i < |s| - 1 ==> s[1..][i] == s[i + 1];
      SplitNoSep(s[1..], sep);
      assert [s[0]] + s[1..] == s;
    }
  }

  /** Splitting `a + [sep] + b` where `a` has no separator: `a` is the first part, the rest is `b`'s split. */
  lemma {:induction false} SplitAtFirst(a: string, sep: char, b: string)
    requires !HasChar(a, sep)
    ensures Split(a + [sep] + b, sep) == [a] + Split(b, sep)
    decreases |a|
  {
    if |a| == 0 {
      assert a + [sep] + b == [sep] + b;
      assert ([sep] + b)[1..] == b;
    } else {
      assert forall i :: 0 <= i < |a| - 1 ==> a[1..][i] == a[i + 1];
      SplitAtFirst(a[1..], sep, b);
      assert (a + [sep] + b)[1..] == a[1..] + [sep] + b;
      assert [a[0]] + a[1..] == a;
    }
  }

  /** A string holding the separator splits into at least two parts. */
  lemma SplitHasTwoParts(s: string, sep: char)
    ensures HasChar(s, sep) ==> |Split(s, sep)| >= 2
  {
    JoinSplit(s, sep);
  }

  /** The first whitespace-free run at the start of `s`. */
  function TakeWord(s: string): (w: string)
    ensures |w| <= |s| && w == s[..|w|]
    ensures All(w, c => !IsSpace(c))
    ensures |w| == |s| || IsSpace(s[|w|])
  {
    s[..SkipWhile(s, 0, c => !IsSpace(c))]
  }

  /** `s.split()` with no argument: the maximal whitespace-free runs, never an empty one. */
  function Words(s: string): (ws: seq<string>)
    ensures forall k :: 0 <= k < |ws| ==> |ws[k]| > 0
    decreases |s|
  {
    if |s| == 0 then []
    else if IsSpace(s[0]) then Words(s[1..])
    else
      var w := TakeWord(s);
      [w] + Words(s[|w|..])
  }

  /** A string that starts with a non-space character has words, and the first is its leading run. */
  lemma WordsHead(s: string)
    requires |s| > 0 && !IsSpace(s[0])
    ensures |Words(s)| >= 1 && Words(s)[0] == TakeWord(s)
  {
  }

  // ---------------------------------------------------------------------
  // Case mapping, replace
  // ---------------------------------------------------------------------

  function LowerChar(c: char): char {
    if IsUpper(c) then (c as int + 32) as char else c
  }

  function UpperChar(c: char): char {
    if IsLower(c) then (c as int - 32) as char else c
  }

  /** `s.lower()` (ASCII letters only). */
  function Lower(s: string): (r: string)
    ensures |r| == |s|
    ensures forall i :: 0 <= i < |s| ==> r[i] == LowerChar(s[i])
  {
    seq(|s|, i requires 0 <= i < |s| => LowerChar(s[i]))
  }

  /**
   * `s.title()` (ASCII): a letter is upper-cased when it starts a word (the
   * previous character is not a letter) and lower-cased otherwise.
   */
  function Title(s: string): (r: string)
    ensures |r| == |s|
  {
    seq(|s|, i requires 0 <= i < |s| =>
      if i == 0 || !IsLetter(s[i - 1]) then UpperChar(s[i]) else LowerChar(s[i]))
  }

  /** `s.replace(a, b)` for single characters. */
  function ReplaceChar(s: string, a: char, b: char): (r: string)
    ensures |r| == |s|
    ensures forall i :: 0 <= i < |s| ==> r[i] == (if s[i] == a then b else s[i])
  {
    seq(|s|, i requires 0 <= i < |s| => if s[i] == a then b else s[i])
  }

  // ---------------------------------------------------------------------
  // Numbers
  // ---------------------------------------------------------------------

  /** `s.isdigit()` (ASCII): non-empty and every character a digit. */
  predicate IsDigitString(s: string) { IsDigits(s) }

  /** `int(s)` for a string of ASCII digits (leading zeros allowed, as Python does). */
  function DigitsValue(s: string): (n: nat)
    requires All(s, IsDigit)
    decreases |s|
  {
    if |s| == 0 then 0
    else DigitsValue(s[..|s| - 1]) * 10 + (s[|s| - 1] as int - '0' as int)
  }

  /** `str(n)` for a natural number. */
  function NatToString(n: nat): (s: string)
    ensures IsDigits(s)
    decreases n
  {
    var d := ['0' + (n % 10) as char];
    if n < 10 then d else NatToString(n / 10) + d
  }

  /** `str(n)` for one- and two-digit numbers, digit by digit. */
  lemma NatToStringSmall(n: nat)
    requires n < 100
    ensures n < 10 ==> NatToString(n) == ['0' + n as char]
    ensures 10 <= n ==> NatToString(n) == ['0' + (n / 10) as char, '0' + (n % 10) as char]
  {
    if 10 <= n {
      assert NatToString(n / 10) == ['0' + (n / 10) as char];
    }
  }

  /** `str(i)` for an integer. */
  function IntToString(i: int): (s: string)
    ensures |s| > 0
  {
    if i < 0 then "-" + NatToString(-i) else NatToString(i)
  }

  /** The integer value of a dot-separated version part, -1 when the part is not a run of digits. */
  function PartValue(p: string): int {
    if IsDigits(p) then DigitsValue(p) else -1
  }

  /**
   * `tuple(map(int, v.split('.')))`: a version as the tuple of its integer
   * parts, so that `4.16.10` follows `4.16.9`. Where `int` would raise on a
   * part that is not digits the part counts as -1; every caller has
   * matched the version against a digits-and-dots pattern first.
   */
  function VersionNumbers(v: string): (k: seq<int>)
    ensures |k| == |Split(v, '.')|
    ensures forall i :: 0 <= i < |k| && IsDigits(Split(v, '.')[i]) ==> k[i] == DigitsValue(Split(v, '.')[i])
  {
    var parts := Split(v, '.');
    seq(|parts|, i requires 0 <= i < |parts| => PartValue(parts[i]))
  }

  /** The integer parts of `a.b`. */
  lemma VersionNumbersOfMinor(a: string, b: string)
    requires IsDigits(a) && IsDigits(b)
    ensures VersionNumbers(a + "." + b) == [DigitsValue(a), DigitsValue(b)]
  {
    SplitDigitsTwo(a, b);
    NumbersOfTwoParts(a + "." + b, a, b);
  }

  lemma NumbersOfTwoParts(v: string, a: string, b: string)
    requires Split(v, '.') == [a, b] && IsDigits(a) && IsDigits(b)
    ensures VersionNumbers(v) == [DigitsValue(a), DigitsValue(b)]
  {
    var k := VersionNumbers(v);
    assert |k| == 2 && k[0] == DigitsValue(a) && k[1] == DigitsValue(b);
  }

  /** The integer parts of `a.b.c`. */
  lemma VersionNumbersOfRelease(a: string, b: string, c: string)
    requires IsDigits(a) && IsDigits(b) && IsDigits(c)
    ensures VersionNumbers(a + "." + b + "." + c) == [DigitsValue(a), DigitsValue(b), DigitsValue(c)]
  {
    SplitDigitsThree(a, b, c);
    NumbersOfThreeParts(a + "." + b + "." + c, a, b, c);
  }

  lemma NumbersOfThreeParts(v: string, a: string, b: string, c: string)
    requires Split(v, '.') == [a, b, c] && IsDigits(a) && IsDigits(b) && IsDigits(c)
    ensures VersionNumbers(v) == [DigitsValue(a), DigitsValue(b), DigitsValue(c)]
  {
    var k := VersionNumbers(v);
    var parts := Split(v, '.');
    assert parts[0] == a && parts[1] == b && parts[2] == c;
    ThreeInts(k, DigitsValue(a), DigitsValue(b), DigitsValue(c));
  }

  lemma ThreeInts(k: seq<int>, x: int, y: int, z: int)
    requires |k| == 3 && k[0] == x && k[1] == y && k[2] == z
    ensures k == [x, y, z]
  {
  }

  /** Digits contain no dot. */
  lemma DigitsHaveNoDot(a: string)
    requires IsDigits(a)
    ensures !HasChar(a, '.')
  {
    assert forall k :: 0 <= k < |a| ==> IsDigit(a[k]);
  }

  /** `a.b` with digit runs `a`, `b` splits at the dot into `a` and `b`. */
  lemma SplitDigitsTwo(a: string, b: string)
    requires IsDigits(a) && IsDigits(b)
    ensures Split(a + "." + b, '.') == [a, b]
  {
    DigitsHaveNoDot(a);
    DigitsHaveNoDot(b);
    SplitNoSep(b, '.');
    SplitAtFirst(a, '.', b);
    assert a + "." + b == a + ['.'] + b;
  }

  /** `a.b.c` with digit runs `a`, `b`, `c` splits at the dots into `a`, `b` and `c`. */
  lemma SplitDigitsThree(a: string, b: string, c: string)
    requires IsDigits(a) && IsDigits(b) && IsDigits(c)
    ensures Split(a + "." + b + "." + c, '.') == [a, b, c]
  {
    var bc := b + "." + c;
    SplitDigitsTwo(b, c);
    DigitsHaveNoDot(a);
    SplitAtFirst(a, '.', bc);
    assert a + "." + b + "." + c == a + ['.'] + bc;
  }

  /** Reading back what `str(n)` printed gives `n`. */
  lemma {:induction false} DigitsValueOfNatToString(n: nat)
    ensures DigitsValue(NatToString(n)) == n
    decreases n
  {
    var s := NatToString(n);
    if n >= 10 {
      DigitsValueOfNatToString(n / 10);
      assert s[..|s| - 1] == NatToString(n / 10);
    }
  }

  /** The code points of a string: Python orders strings by comparing these. */
  function Codes(s: string): (r: seq<int>)
    ensures |r| == |s|
    ensures forall i :: 0 <= i < |s| ==> r[i] == s[i] as int
  {
    seq(|s|, i requires 0 <= i < |s| => s[i] as int)
  }

  /** Different strings have different code sequences. */
  lemma CodesInjective(a: string, b: string)
    requires Codes(a) == Codes(b)
    ensures a == b
  {
    assert |a| == |b|;
    forall i | 0 <= i < |a| ensures a[i] == b[i] {
      assert Codes(a)[i] == Codes(b)[i];
    }
  }
}
