/**
 * Python's orderings and the library routines built on them: comparison of
 * lists/tuples of integers (and of strings, which Python compares code point
 * by code point), the stable `sorted(..., key=..., reverse=...)`, `min` and
 * `max` over strings, and "append if not already in the list" de-duplication.
 */
module Ordering {
  import opened Text

  // ---------------------------------------------------------------------
  // Lexicographic order on sequences of integers
  // ---------------------------------------------------------------------

  /** `a <= b` for Python lists or tuples of ints: first difference decides, a proper prefix is smaller. */
  predicate LexLe(a: seq<int>, b: seq<int>)
    decreases |a|
  {
    |a| == 0 || (|b| > 0 && (a[0] < b[0] || (a[0] == b[0] && LexLe(a[1..], b[1..]))))
  }

  /** `a < b` for Python lists or tuples of ints. */
  predicate LexLt(a: seq<int>, b: seq<int>) {
    LexLe(a, b) && a != b
  }

  /** The reference reading of `a <= b`: `a` is a prefix of `b`, or at the first difference `a` is smaller. */
  predicate LexLeSpec(a: seq<int>, b: seq<int>) {
    (|a| <= |b| && a == b[..|a|])
    || (exists k :: 0 <= k < |a| && k < |b| && a[..k] == b[..k] && a[k] < b[k])
  }

  /** The recursive comparison agrees with its reference reading. */
  lemma LexLeMatchesSpec(a: seq<int>, b: seq<int>)
    ensures LexLe(a, b) <==> LexLeSpec(a, b)
  {
    if LexLe(a, b) {
      LexLeToSpec(a, b);
    }
    if LexLeSpec(a, b) {
      SpecToLexLe(a, b);
    }
  }

  lemma {:induction false} LexLeToSpec(a: seq<int>, b: seq<int>)
    requires LexLe(a, b)
    ensures LexLeSpec(a, b)
    decreases |a|
  {
    if |a| == 0 {
      assert a == b[..0];
    } else if a[0] < b[0] {
      assert a[..0] == b[..0];
    } else {
      var a', b' := a[1..], b[1..];
      LexLeToSpec(a', b');
      if |a'| <= |b'| && a' == b'[..|a'|] {
        assert a == [a[0]] + a' && b[..|a|] == [b[0]] + b'[..|a'|];
      } else {
        var k :| 0 <= k < |a'| && k < |b'| && a'[..k] == b'[..k] && a'[k] < b'[k];
        assert a[..k + 1] == [a[0]] + a'[..k] && b[..k + 1] == [b[0]] + b'[..k];
        assert a[k + 1] < b[k + 1];
      }
    }
  }

  lemma {:induction false} SpecToLexLe(a: seq<int>, b: seq<int>)
    requires LexLeSpec(a, b)
    ensures LexLe(a, b)
    decreases |a|
  {
    if |a| > 0 {
      var a', b' := a[1..], b[1..];
      if |a| <= |b| && a == b[..|a|] {
        assert a[0] == b[..|a|][0] == b[0];
        assert a' == b'[..|a'|];
        SpecToLexLe(a', b');
      } else {
        var k :| 0 <= k < |a| && k < |b| && a[..k] == b[..k] && a[k] < b[k];
        if k > 0 {
          assert a[..k][0] == b[..k][0];
          assert a'[..k - 1] == a[..k][1..] && b'[..k - 1] == b[..k][1..];
          assert a'[k - 1] < b'[k - 1];
          SpecToLexLe(a', b');
        }
      }
    }
  }

  lemma {:induction false} LexLeRefl(a: seq<int>)
    ensures LexLe(a, a)
    decreases |a|
  {
    if |a| > 0 { LexLeRefl(a[1..]); }
  }

  lemma {:induction false} LexLeTotal(a: seq<int>, b: seq<int>)
    ensures LexLe(a, b) || LexLe(b, a)
    decreases |a|
  {
    if |a| > 0 && |b| > 0 && a[0] == b[0] { LexLeTotal(a[1..], b[1..]); }
  }

  lemma {:induction false} LexLeTrans(a: seq<int>, b: seq<int>, c: seq<int>)
    requires LexLe(a, b) && LexLe(b, c)
    ensures LexLe(a, c)
    decreases |a|
  {
    if |a| > 0 && a[0] == b[0] && b[0] == c[0] { LexLeTrans(a[1..], b[1..], c[1..]); }
  }

  lemma {:induction false} LexLeAntisym(a: seq<int>, b: seq<int>)
    requires LexLe(a, b) && LexLe(b, a)
    ensures a == b
    decreases |a|
  {
    if |a| > 0 {
      LexLeAntisym(a[1..], b[1..]);
      assert a == [a[0]] + a[1..] && b == [b[0]] + b[1..];
    }
  }

  /** `a < b` rules out `b <= a`. */
  lemma {:induction false} LexLtAsym(a: seq<int>, b: seq<int>)
    requires LexLt(a, b)
    ensures !LexLe(b, a)
    decreases |a|
  {
    if |a| > 0 && a[0] == b[0] {
      assert a == [a[0]] + a[1..] && b == [b[0]] + b[1..];
      LexLtAsym(a[1..], b[1..]);
    }
  }

  // ---------------------------------------------------------------------
  // Stable sort by key
  // ---------------------------------------------------------------------

  /** `x` may stand before `y` in a list sorted by `key` (descending when `desc`, i.e. `reverse=True`). */
  predicate Before<T>(x: T, y: T, key: T -> seq<int>, desc: bool) {
    if desc then LexLe(key(y), key(x)) else LexLe(key(x), key(y))
  }

  predicate SortedBy<T>(s: seq<T>, key: T -> seq<int>, desc: bool) {
    forall i, j :: 0 <= i < j < |s| ==> Before(s[i], s[j], key, desc)
  }

  lemma BeforeTotal<T>(x: T, y: T, key: T -> seq<int>, desc: bool)
    ensures Before(x, y, key, desc) || Before(y, x, key, desc)
  {
    LexLeTotal(key(x), key(y));
  }

  lemma BeforeTrans<T>(x: T, y: T, z: T, key: T -> seq<int>, desc: bool)
    requires Before(x, y, key, desc) && Before(y, z, key, desc)
    ensures Before(x, z, key, desc)
  {
    if desc { LexLeTrans(key(z), key(y), key(x)); } else { LexLeTrans(key(x), key(y), key(z)); }
  }

  /** Inserts `x` in front of the first element it may stand before; `x` goes ahead of the elements it ties with. */
  function Insert<T(==)>(x: T, s: seq<T>, key: T -> seq<int>, desc: bool): (r: seq<T>)
    requires SortedBy(s, key, desc)
    ensures SortedBy(r, key, desc)
    ensures multiset(r) == multiset(s) + multiset{x}
    decreases |s|
  {
    if |s| == 0 then [x]
    else if Before(x, s[0], key, desc) then
      InsertFront(x, s, key, desc);
      [x] + s
    else
      BeforeTotal(x, s[0], key, desc);
      var rest := Insert(x, s[1..], key, desc);
      InsertBehind(x, s, rest, key, desc);
      [s[0]] + rest
  }

  /** `x` goes first when it may stand before the head of a sorted sequence. */
  lemma InsertFront<T>(x: T, s: seq<T>, key: T -> seq<int>, desc: bool)
    requires SortedBy(s, key, desc) && |s| > 0 && Before(x, s[0], key, desc)
    ensures SortedBy([x] + s, key, desc)
  {
    forall j | 0 <= j < |s| ensures Before(x, s[j], key, desc) {
      if j > 0 { BeforeTrans(x, s[0], s[j], key, desc); }
    }
    var r := [x] + s;
    forall i, j | 0 <= i < j < |r| ensures Before(r[i], r[j], key, desc) {
      if i > 0 { assert r[i] == s[i - 1] && r[j] == s[j - 1]; } else { assert r[j] == s[j - 1]; }
    }
  }

  /** The head stays first when `x` went into the tail. */
  lemma InsertBehind<T>(x: T, s: seq<T>, rest: seq<T>, key: T -> seq<int>, desc: bool)
    requires SortedBy(s, key, desc) && |s| > 0 && Before(s[0], x, key, desc)
    requires SortedBy(rest, key, desc) && multiset(rest) == multiset(s[1..]) + multiset{x}
    ensures SortedBy([s[0]] + rest, key, desc)
    ensures multiset([s[0]] + rest) == multiset(s) + multiset{x}
  {
    assert s == [s[0]] + s[1..];
    forall j | 0 <= j < |rest| ensures Before(s[0], rest[j], key, desc) {
      assert rest[j] in multiset(rest);
      if rest[j] != x {
        assert rest[j] in multiset(s[1..]);
        var k :| 0 <= k < |s[1..]| && s[1..][k] == rest[j];
        assert s[k + 1] == rest[j];
      }
    }
    var r := [s[0]] + rest;
    forall i, j | 0 <= i < j < |r| ensures Before(r[i], r[j], key, desc) {
      if i > 0 { assert r[i] == rest[i - 1] && r[j] == rest[j - 1]; } else { assert r[j] == rest[j - 1]; }
    }
  }

  /**
   * Python's stable `sorted(s, key=key, reverse=desc)`: elements whose keys tie
   * keep their original relative order.
   */
  function SortBy<T(==)>(s: seq<T>, key: T -> seq<int>, desc: bool): (r: seq<T>)
    ensures SortedBy(r, key, desc)
    ensures multiset(r) == multiset(s)
    decreases |s|
  {
    if |s| == 0 then []
    else
      assert s == [s[0]] + s[1..];
      Insert(s[0], SortBy(s[1..], key, desc), key, desc)
  }

  /** The elements of `s` whose key is `k`, in their order in `s`. */
  function Ties<T>(s: seq<T>, key: T -> seq<int>, k: seq<int>): seq<T>
    decreases |s|
  {
    if |s| == 0 then []
    else (if key(s[0]) == k then [s[0]] else []) + Ties(s[1..], key, k)
  }

  /** `Insert` puts `x` ahead of the elements it ties with and leaves their order alone. */
  lemma {:induction false} InsertTies<T>(x: T, s: seq<T>, key: T -> seq<int>, desc: bool, k: seq<int>)
    requires SortedBy(s, key, desc)
    ensures Ties(Insert(x, s, key, desc), key, k) == (if key(x) == k then [x] else []) + Ties(s, key, k)
    decreases |s|
  {
    if |s| == 0 {
      assert Insert(x, s, key, desc) == [x] + s;
      TiesCons(x, s, key, k);
    } else if Before(x, s[0], key, desc) {
      assert Insert(x, s, key, desc) == [x] + s;
      TiesCons(x, s, key, k);
    } else {
      NotBeforeNoTie(x, s[0], key, desc);
      SortedTail(s, key, desc);
      InsertTies(x, s[1..], key, desc, k);
      InsertBehindTies(x, s, Insert(x, s[1..], key, desc), key, k);
    }
  }

  /** The ties of a sequence with a new head. */
  lemma TiesCons<T>(y: T, r: seq<T>, key: T -> seq<int>, k: seq<int>)
    ensures Ties([y] + r, key, k) == (if key(y) == k then [y] else []) + Ties(r, key, k)
  {
    assert ([y] + r)[1..] == r;
  }

  /** An element that may not stand before `y` does not tie with it. */
  lemma NotBeforeNoTie<T>(x: T, y: T, key: T -> seq<int>, desc: bool)
    requires !Before(x, y, key, desc)
    ensures key(x) != key(y)
  {
    LexLeRefl(key(x));
  }

  /** The ties after `x` went behind the head, given the ties of the tail after inserting `x`. */
  lemma InsertBehindTies<T>(x: T, s: seq<T>, rest: seq<T>, key: T -> seq<int>, k: seq<int>)
    requires |s| > 0 && key(x) != key(s[0])
    requires Ties(rest, key, k) == (if key(x) == k then [x] else []) + Ties(s[1..], key, k)
    ensures Ties([s[0]] + rest, key, k) == (if key(x) == k then [x] else []) + Ties(s, key, k)
  {
    TiesCons(s[0], rest, key, k);
    TiesCons(s[0], s[1..], key, k);
    assert s == [s[0]] + s[1..];
  }

  /** A sorted sequence stays sorted without its head. */
  lemma SortedTail<T>(s: seq<T>, key: T -> seq<int>, desc: bool)
    requires SortedBy(s, key, desc) && |s| > 0
    ensures SortedBy(s[1..], key, desc)
  {
    forall i, j | 0 <= i < j < |s| - 1 ensures Before(s[1..][i], s[1..][j], key, desc) {
      assert s[1..][i] == s[i + 1] && s[1..][j] == s[j + 1];
    }
  }

  /** The sort is stable: for every key, the elements with that key keep their input order. */
  lemma {:induction false} SortByStable<T>(s: seq<T>, key: T -> seq<int>, desc: bool, k: seq<int>)
    ensures Ties(SortBy(s, key, desc), key, k) == Ties(s, key, k)
    decreases |s|
  {
    if |s| > 0 {
      SortByStable(s[1..], key, desc, k);
      InsertTies(s[0], SortBy(s[1..], key, desc), key, desc, k);
    }
  }

  // ---------------------------------------------------------------------
  // Strings: order, min, max
  // ---------------------------------------------------------------------

  /** Python's `a <= b` on strings: code point by code point. */
  predicate StrLe(a: string, b: string) {
    LexLe(Codes(a), Codes(b))
  }

  /** Python's `a < b` on strings. */
  predicate StrLt(a: string, b: string) {
    StrLe(a, b) && a != b
  }

  lemma StrLeTotal(a: string, b: string)
    ensures StrLe(a, b) || StrLe(b, a)
  {
    LexLeTotal(Codes(a), Codes(b));
  }

  lemma StrLeTrans(a: string, b: string, c: string)
    requires StrLe(a, b) && StrLe(b, c)
    ensures StrLe(a, c)
  {
    LexLeTrans(Codes(a), Codes(b), Codes(c));
  }

  /**
   * Python's `min(vs, key=key)`: scans left to right and replaces the current
   * minimum only by an element with a strictly smaller key.
   */
  function MinBy<T>(vs: seq<T>, key: T -> seq<int>): (m: T)
    requires |vs| > 0
    ensures m in vs
    ensures forall v :: v in vs ==> LexLe(key(m), key(v))
  {
    if |vs| == 1 then LexLeRefl(key(vs[0])); vs[0]
    else
      var m := MinBy(vs[..|vs| - 1], key);
      var last := vs[|vs| - 1];
      assert vs == vs[..|vs| - 1] + [last];
      LexLeTotal(key(last), key(m));
      if LexLt(key(last), key(m)) then
        assert forall v :: v in vs[..|vs| - 1] ==> LexLe(key(last), key(v)) by {
          forall v | v in vs[..|vs| - 1] ensures LexLe(key(last), key(v)) { LexLeTrans(key(last), key(m), key(v)); }
        }
        LexLeRefl(key(last));
        last
      else
        m
  }

  /** Python's `max(vs, key=key)`: replaces the current maximum only by an element with a strictly larger key. */
  function MaxBy<T>(vs: seq<T>, key: T -> seq<int>): (m: T)
    requires |vs| > 0
    ensures m in vs
    ensures forall v :: v in vs ==> LexLe(key(v), key(m))
  {
    if |vs| == 1 then LexLeRefl(key(vs[0])); vs[0]
    else
      var m := MaxBy(vs[..|vs| - 1], key);
      var last := vs[|vs| - 1];
      assert vs == vs[..|vs| - 1] + [last];
      LexLeTotal(key(last), key(m));
      if LexLt(key(m), key(last)) then
        assert forall v :: v in vs[..|vs| - 1] ==> LexLe(key(v), key(last)) by {
          forall v | v in vs[..|vs| - 1] ensures LexLe(key(v), key(last)) { LexLeTrans(key(v), key(m), key(last)); }
        }
        LexLeRefl(key(last));
        last
      else
        m
  }

  /** `min` and `max` of two elements whose keys differ. */
  lemma MinMaxByOfTwo<T>(x: T, y: T, key: T -> seq<int>)
    requires LexLt(key(x), key(y)) || LexLt(key(y), key(x))
    ensures LexLt(key(x), key(y)) ==> MinBy([x, y], key) == x && MaxBy([x, y], key) == y
    ensures LexLt(key(y), key(x)) ==> MinBy([x, y], key) == y && MaxBy([x, y], key) == x
  {
    assert [x, y][..1] == [x];
    if LexLt(key(x), key(y)) {
      LexLtAsym(key(x), key(y));
    } else {
      LexLtAsym(key(y), key(x));
    }
  }

  /** Python's `min(vs)` over strings. */
  function MinStr(vs: seq<string>): (m: string)
    requires |vs| > 0
    ensures m in vs
    ensures forall v :: v in vs ==> StrLe(m, v)
  {
    MinBy(vs, Codes)
  }

  /** Python's `max(vs)` over strings. */
  function MaxStr(vs: seq<string>): (m: string)
    requires |vs| > 0
    ensures m in vs
    ensures forall v :: v in vs ==> StrLe(v, m)
  {
    MaxBy(vs, Codes)
  }

  // ---------------------------------------------------------------------
  // De-duplication keeping the first occurrence
  // ---------------------------------------------------------------------

  predicate NoDuplicates<T(==)>(s: seq<T>) {
    forall i, j :: 0 <= i < j < |s| ==> s[i] != s[j]
  }

  /** The result of `for x in s: if x not in r: r.append(x)`. */
  function DedupeFirst<T(==)>(s: seq<T>): (r: seq<T>)
    ensures NoDuplicates(r)
    ensures forall i :: 0 <= i < |r| ==> r[i] in s
    ensures forall i :: 0 <= i < |s| ==> s[i] in r
    decreases |s|
  {
    if |s| == 0 then []
    else
      var d := DedupeFirst(s[..|s| - 1]);
      assert s == s[..|s| - 1] + [s[|s| - 1]];
      if s[|s| - 1] in d then d else d + [s[|s| - 1]]
  }

  /** A sequence without repeats holds each value at most once. */
  lemma {:induction false} NoDuplicatesCounts<T>(s: seq<T>)
    requires NoDuplicates(s)
    ensures forall x :: multiset(s)[x] <= 1
    decreases |s|
  {
    if |s| > 0 {
      var p, y := s[..|s| - 1], s[|s| - 1];
      assert s == p + [y];
      assert NoDuplicates(p) by {
        forall i, j | 0 <= i < j < |p| ensures p[i] != p[j] { assert p[i] == s[i] && p[j] == s[j]; }
      }
      NoDuplicatesCounts(p);
      assert y !in p by {
        forall i | 0 <= i < |p| ensures p[i] != y { assert p[i] == s[i]; }
      }
      assert multiset(s) == multiset(p) + multiset{y};
    }
  }

  /** A sequence holding each value at most once has no repeats. */
  lemma {:induction false} CountsNoDuplicates<T>(s: seq<T>)
    requires forall x :: multiset(s)[x] <= 1
    ensures NoDuplicates(s)
    decreases |s|
  {
    if |s| > 0 {
      var p, y := s[..|s| - 1], s[|s| - 1];
      assert s == p + [y];
      assert multiset(s) == multiset(p) + multiset{y};
      forall x ensures multiset(p)[x] <= 1 {
        assert multiset(s)[x] >= multiset(p)[x];
      }
      CountsNoDuplicates(p);
      assert multiset(s)[y] == multiset(p)[y] + 1 <= 1;
      forall i, j | 0 <= i < j < |s| ensures s[i] != s[j] {
        assert s[i] == p[i] && p[i] in multiset(p);
        if j < |s| - 1 {
          assert s[j] == p[j];
        }
      }
    }
  }

  /** Reordering keeps a sequence free of repeats (`sorted(set(...))` yields unique items). */
  lemma PermutationKeepsNoDuplicates<T>(a: seq<T>, b: seq<T>)
    requires multiset(a) == multiset(b) && NoDuplicates(a)
    ensures NoDuplicates(b)
  {
    NoDuplicatesCounts(a);
    CountsNoDuplicates(b);
  }

  /** Where an item of `a` stands in a reordering `b` of it. */
  lemma PermutedIndex<T>(a: seq<T>, b: seq<T>, i: nat) returns (k: nat)
    requires multiset(a) == multiset(b) && i < |a|
    ensures k < |b| && b[k] == a[i]
  {
    assert a[i] in multiset(b);
    k :| k < |b| && b[k] == a[i];
  }

  /** In a sorted sequence, an element whose key strictly comes first stands at an earlier index. */
  lemma SortedPlacesStrictlyFirst<T>(s: seq<T>, key: T -> seq<int>, desc: bool, p: int, q: int)
    requires SortedBy(s, key, desc) && 0 <= p < |s| && 0 <= q < |s|
    requires if desc then LexLt(key(s[q]), key(s[p])) else LexLt(key(s[p]), key(s[q]))
    ensures p < q
  {
    if desc {
      LexLtAsym(key(s[q]), key(s[p]));
    } else {
      LexLtAsym(key(s[p]), key(s[q]));
    }
  }

  /** Keeping first occurrences, one more item is kept exactly when it has not been seen. */
  lemma DedupeFirstSnoc<T>(s: seq<T>, x: T)
    ensures x in DedupeFirst(s) <==> x in s
    ensures DedupeFirst(s + [x]) == if x in s then DedupeFirst(s) else DedupeFirst(s) + [x]
  {
    assert (s + [x])[..|s|] == s;
  }

  /** Sorted by code points and free of repeats: strictly increasing. */
  lemma SortedUniqueStrictly(cs: seq<string>)
    requires SortedBy(cs, Codes, false) && NoDuplicates(cs)
    ensures forall i, j :: 0 <= i < j < |cs| ==> StrLt(cs[i], cs[j])
  {
  }

  /** As version numbers, 4.16.9 comes before 4.16.10. */
  lemma NineBeforeTenAsVersions()
    ensures LexLt(VersionNumbers("4.16.9"), VersionNumbers("4.16.10"))
  {
    assert "4.16.9" == "4" + "." + "16" + "." + "9";
    assert "4.16.10" == "4" + "." + "16" + "." + "10";
    assert DigitsValue("1") == 1;
    VersionNumbersOfRelease("4", "16", "9");
    VersionNumbersOfRelease("4", "16", "10");
  }

  /** As version numbers, 4.9 comes before 4.10. */
  lemma MinorKeysTenNine()
    ensures LexLt(VersionNumbers("4.9"), VersionNumbers("4.10"))
  {
    assert "4.9" == "4" + "." + "9";
    assert "4.10" == "4" + "." + "10";
    assert DigitsValue("1") == 1;
    VersionNumbersOfMinor("4", "9");
    VersionNumbersOfMinor("4", "10");
  }
}
