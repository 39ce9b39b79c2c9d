/**
 * The Python string operations the deployment tool relies on, written out so
 * that their corner cases are part of the model: `str.find`/`in`,
 * `str.split(sep)`, `str.rsplit(sep, maxsplit)`, `str.strip(chars)`,
 * `sep.join(parts)`, `str.replace`, `str(n)`/`int(s)` on decimal digits, the
 * code-point order used by `<` and `sorted`, and the stable `sorted(key=...,
 * reverse=...)`.
 */
module Strings {
  import opened Wrappers

  // ---------------------------------------------------------------------------
  // Occurrences and `in`

  /** `sep` occurs in `s` starting at index `i`. */
  predicate OccursAt(s: string, sep: string, i: nat) {
    i + |sep| <= |s| && s[i..i + |sep|] == sep
  }

  /** `sep` occurs in `s` at index `i`, compared character by character. */
  predicate MatchesAt(s: string, sep: string, i: nat)
    decreases |sep|
  {
    |sep| == 0 || (i < |s| && s[i] == sep[0] && MatchesAt(s, sep[1..], i + 1))
  }

  lemma {:induction false} MatchesAtOccurs(s: string, sep: string, i: nat)
    requires i + |sep| <= |s|
    ensures MatchesAt(s, sep, i) <==> OccursAt(s, sep, i)
    decreases |sep|
  {
    if |sep| > 0 {
      MatchesAtOccurs(s, sep[1..], i + 1);
      assert s[i..i + |sep|] == [s[i]] + s[i + 1..i + 1 + |sep[1..]|];
      assert sep == [sep[0]] + sep[1..];
    }
  }

  /** Python `s.find(sep, start)`: the index of the leftmost occurrence at or after `start`. */
  function FindFrom(s: string, sep: string, start: nat): Option<nat>
    decreases |s| - start
  {
    if start + |sep| > |s| then None
    else if MatchesAt(s, sep, start) then Some(start)
    else FindFrom(s, sep, start + 1)
  }

  /** Python `s.find(sep)`: the index of the leftmost occurrence (None for -1). */
  function Find(s: string, sep: string): Option<nat> {
    FindFrom(s, sep, 0)
  }

  /** `find` reports the leftmost occurrence at or after `start`, and None only when there is none. */
  lemma {:induction false} FindFromLeftmost(s: string, sep: string, start: nat)
    ensures var r := FindFrom(s, sep, start);
      && (r.Some? ==> start <= r.value && OccursAt(s, sep, r.value))
      && (r.Some? ==> forall j: nat :: start <= j < r.value ==> !OccursAt(s, sep, j))
      && (r.None? ==> forall j: nat :: start <= j ==> !OccursAt(s, sep, j))
    decreases |s| - start
  {
    if start + |sep| <= |s| {
      MatchesAtOccurs(s, sep, start);
      if !MatchesAt(s, sep, start) {
        FindFromLeftmost(s, sep, start + 1);
      }
    }
  }

  lemma FindLeftmost(s: string, sep: string)
    ensures var r := Find(s, sep);
      && (r.Some? ==> OccursAt(s, sep, r.value))
      && (r.Some? ==> forall j: nat :: j < r.value ==> !OccursAt(s, sep, j))
      && (r.None? ==> forall j: nat :: !OccursAt(s, sep, j))
  {
    FindFromLeftmost(s, sep, 0);
  }

  /** Python `sub in s`. */
  predicate Contains(s: string, sub: string) {
    Find(s, sub).Some?
  }

  lemma ContainsAt(s: string, sub: string, i: nat)
    requires OccursAt(s, sub, i)
    ensures Contains(s, sub)
  {
    FindLeftmost(s, sub);
  }

  /** A single character occurs exactly where it is found. */
  lemma OccursAtChar(s: string, c: char, i: nat)
    ensures OccursAt(s, [c], i) <==> i < |s| && s[i] == c
  {
    if i < |s| {
      assert s[i..i + 1] == [s[i]];
    }
  }

  /** `[c] in s` is `c in s`. */
  lemma ContainsChar(s: string, c: char)
    ensures Contains(s, [c]) <==> c in s
  {
    if c in s {
      var i :| 0 <= i < |s| && s[i] == c;
      OccursAtChar(s, c, i);
      ContainsAt(s, [c], i);
    } else if Contains(s, [c]) {
      FindLeftmost(s, [c]);
      var i := Find(s, [c]).value;
      OccursAtChar(s, c, i);
    }
  }

  // ---------------------------------------------------------------------------
  // split and join

  /** Python `s.split(sep)` for a non-empty separator (Python raises ValueError on ''). */
  function Split(s: string, sep: string): (parts: seq<string>)
    requires |sep| > 0
    ensures |parts| >= 1
    decreases |s|
  {
    FindLeftmost(s, sep);
    match Find(s, sep)
    case None => [s]
    case Some(i) => [s[..i]] + Split(s[i + |sep|..], sep)
  }

  /** Python `sep.join(parts)`. */
  function Join(parts: seq<string>, sep: string): string
  {
    if |parts| == 0 then ""
    else if |parts| == 1 then parts[0]
    else parts[0] + sep + Join(parts[1..], sep)
  }

  lemma JoinCons(x: string, rest: seq<string>, sep: string)
    requires |rest| >= 1
    ensures Join([x] + rest, sep) == x + sep + Join(rest, sep)
  {
    assert ([x] + rest)[1..] == rest;
  }

  lemma SliceAround(s: string, i: nat, n: nat)
    requires i + n <= |s|
    ensures s == s[..i] + s[i..i + n] + s[i + n..]
  {
  }

  /** Splitting and joining back with the same separator gives the original string. */
  lemma {:induction false} JoinSplit(s: string, sep: string)
    requires |sep| > 0
    ensures Join(Split(s, sep), sep) == s
    decreases |s|
  {
    FindLeftmost(s, sep);
    match Find(s, sep)
    case None =>
    case Some(i) =>
      var rest := s[i + |sep|..];
      var parts := Split(rest, sep);
      assert Split(s, sep) == [s[..i]] + parts;
      JoinSplit(rest, sep);
      JoinCons(s[..i], parts, sep);
      SliceAround(s, i, |sep|);
  }

  /** Where the leftmost `c` lies in `a + [c] + b` when `a` has none. */
  lemma FindCharAfter(a: string, c: char, b: string)
    requires c !in a
    ensures Find(a + [c] + b, [c]) == Some(|a|)
  {
    var s := a + [c] + b;
    OccursAtChar(s, c, |a|);
    FindLeftmost(s, [c]);
    var k := Find(s, [c]).value;
    OccursAtChar(s, c, k);
  }

  /** A string without `c` is its own split on `c`. */
  lemma SplitCharAbsent(s: string, c: char)
    requires c !in s
    ensures Split(s, [c]) == [s]
  {
    ContainsChar(s, c);
  }

  /** Joining parts that do not contain `c` with `c` and splitting on `c` gives the parts back. */
  lemma {:induction false} SplitJoinChar(parts: seq<string>, c: char)
    requires |parts| >= 1
    requires forall p :: p in parts ==> c !in p
    ensures Split(Join(parts, [c]), [c]) == parts
    decreases |parts|
  {
    if |parts| == 1 {
      SplitCharAbsent(parts[0], c);
    } else {
      var tail := Join(parts[1..], [c]);
      FindCharAfter(parts[0], c, tail);
      var s := parts[0] + [c] + tail;
      assert s[|parts[0]| + 1..] == tail;
      assert s[..|parts[0]|] == parts[0];
      SplitJoinChar(parts[1..], c);
      assert parts == [parts[0]] + parts[1..];
    }
  }

  /** Splitting on one character gives one more part than there are occurrences of it. */
  lemma {:induction false} SplitCharCount(s: string, c: char)
    ensures |Split(s, [c])| == multiset(s)[c] + 1
    decreases |s|
  {
    FindLeftmost(s, [c]);
    match Find(s, [c])
    case None =>
      ContainsChar(s, c);
    case Some(i) =>
      OccursAtChar(s, c, i);
      forall j | 0 <= j < i ensures s[j] != c {
        OccursAtChar(s, c, j);
      }
      assert c !in s[..i];
      var rest := s[i + 1..];
      assert s == s[..i] + [c] + rest;
      assert multiset(s) == multiset(s[..i]) + multiset{c} + multiset(rest);
      SplitCharCount(rest, c);
  }

  /** A separator at the very start of `sep + rest`, where `rest` has none, splits off an empty head. */
  lemma SplitAfterPrefix(p: string, rest: string)
    requires |p| > 0 && !Contains(rest, p)
    ensures Split(p + rest, p) == ["", rest]
  {
    var s := p + rest;
    assert s[0..|p|] == p;
    MatchesAtOccurs(s, p, 0);
    assert Find(s, p) == Some(0);
    assert s[|p|..] == rest;
    FindLeftmost(rest, p);
  }

  /** A string without the first character of `sub` does not contain `sub`. */
  lemma AbsentFirstChar(s: string, sub: string)
    requires |sub| > 0 && sub[0] !in s
    ensures !Contains(s, sub)
  {
    FindLeftmost(s, sub);
  }

  /** Python `s.replace(old, new)`, which equals `new.join(s.split(old))`. */
  function Replace(s: string, pattern: string, replacement: string): string
    requires |pattern| > 0
  {
    Join(Split(s, pattern), replacement)
  }

  /** Replacing a substring that does not occur leaves the string unchanged. */
  lemma ReplaceAbsent(s: string, pattern: string, replacement: string)
    requires |pattern| > 0
    requires !Contains(s, pattern)
    ensures Replace(s, pattern, replacement) == s
  {
  }

  // ---------------------------------------------------------------------------
  // rsplit on a single character

  /** Python `s.rfind(c)` for one character. */
  function LastIndexOf(s: string, c: char): (r: Option<nat>)
    ensures r.Some? ==> r.value < |s| && s[r.value] == c
    ensures r.Some? ==> forall j :: r.value < j < |s| ==> s[j] != c
    ensures r.None? ==> c !in s
  {
    if |s| == 0 then None
    else if s[|s| - 1] == c then Some(|s| - 1)
    else
      assert s == s[..|s| - 1] + [s[|s| - 1]];
      LastIndexOf(s[..|s| - 1], c)
  }

  /** Python `s.rsplit(c, maxsplit)`: split at the last `maxsplit` occurrences of `c`. */
  function RSplit(s: string, c: char, maxsplit: nat): (parts: seq<string>)
    ensures |parts| >= 1
  {
    if maxsplit == 0 then [s]
    else match LastIndexOf(s, c)
      case None => [s]
      case Some(i) => RSplit(s[..i], c, maxsplit - 1) + [s[i + 1..]]
  }

  lemma LastIndexOfBefore(a: string, c: char, b: string)
    requires c !in b
    ensures LastIndexOf(a + [c] + b, c) == Some(|a|)
  {
    var s := a + [c] + b;
    var r := LastIndexOf(s, c);
    assert s[|a|] == c;
  }

  /** One split from the right peels off the text after the last `c`. */
  lemma RSplitStep(a: string, c: char, b: string, n: nat)
    requires c !in b && n > 0
    ensures RSplit(a + [c] + b, c, n) == RSplit(a, c, n - 1) + [b]
  {
    var s := a + [c] + b;
    LastIndexOfBefore(a, c, b);
    assert s[..|a|] == a && s[|a| + 1..] == b;
  }

  /** `rsplit(c, 3)` of `a/b/d/e` with slash-free `b`, `d`, `e` gives back the four pieces. */
  lemma RSplitThree(a: string, b: string, d: string, e: string, c: char)
    requires c !in b && c !in d && c !in e
    ensures RSplit(a + [c] + b + [c] + d + [c] + e, c, 3) == [a, b, d, e]
  {
    RSplitStep(a + [c] + b + [c] + d, c, e, 3);
    RSplitStep(a + [c] + b, c, d, 2);
    RSplitStep(a, c, b, 1);
  }

  /** `rsplit(c, n)` yields one part per performed split: `1 + min(n, occurrences)`. */
  lemma {:induction false} RSplitLength(s: string, c: char, n: nat)
    ensures |RSplit(s, c, n)| == 1 + (if n < multiset(s)[c] then n else multiset(s)[c])
  {
    if n == 0 {
    } else {
      match LastIndexOf(s, c)
      case None =>
      case Some(i) =>
        RSplitLength(s[..i], c, n - 1);
        assert s == s[..i] + [c] + s[i + 1..];
        assert c !in s[i + 1..];
        assert multiset(s)[c] == multiset(s[..i])[c] + 1;
    }
  }

  // ---------------------------------------------------------------------------
  // strip

  /** The characters of a Python `strip` argument, which is a set, not a suffix. */
  function CharSet(chars: string): set<char> {
    set c | c in chars
  }

  /** Python `s.lstrip(chars)`. */
  function LStrip(s: string, chars: set<char>): string {
    if |s| > 0 && s[0] in chars then LStrip(s[1..], chars) else s
  }

  /** Python `s.rstrip(chars)`. */
  function RStrip(s: string, chars: set<char>): string {
    if |s| > 0 && s[|s| - 1] in chars then RStrip(s[..|s| - 1], chars) else s
  }

  /** Python `s.strip(chars)`: both ends, character by character. */
  function Strip(s: string, chars: set<char>): string {
    RStrip(LStrip(s, chars), chars)
  }

  /** `lstrip` removes the longest prefix made of `chars` and nothing else. */
  lemma {:induction false} LStripSpec(s: string, chars: set<char>)
    ensures var r := LStrip(s, chars);
      && |r| <= |s| && r == s[|s| - |r|..]
      && (r == [] || r[0] !in chars)
      && (forall i :: 0 <= i < |s| - |r| ==> s[i] in chars)
  {
    if |s| > 0 && s[0] in chars {
      LStripSpec(s[1..], chars);
    }
  }

  /** `rstrip` removes the longest suffix made of `chars` and nothing else. */
  lemma {:induction false} RStripSpec(s: string, chars: set<char>)
    ensures var r := RStrip(s, chars);
      && |r| <= |s| && r == s[..|r|]
      && (r == [] || r[|r| - 1] !in chars)
      && (forall i :: |r| <= i < |s| ==> s[i] in chars)
  {
    if |s| > 0 && s[|s| - 1] in chars {
      RStripSpec(s[..|s| - 1], chars);
    }
  }

  /** Stripping stops at the first character outside the set, from either end. */
  lemma StripBetween(a: string, m: string, b: string, chars: set<char>)
    requires forall c :: c in a ==> c in chars
    requires forall c :: c in b ==> c in chars
    requires |m| > 0 && m[0] !in chars && m[|m| - 1] !in chars
    ensures Strip(a + m + b, chars) == m
  {
    var s := a + m + b;
    var l := LStrip(s, chars);
    LStripSpec(s, chars);
    assert s[|a|] == m[0];
    assert l == m + b;
    var r := RStrip(l, chars);
    RStripSpec(l, chars);
    assert l[|m| - 1] == m[|m| - 1];
  }

  /** The whitespace `str.strip()` removes: the characters for which Python's `str.isspace` holds. */
  const WHITESPACE: set<char> := {
    '\t', '\n', '\U{000B}', '\U{000C}', '\r', '\U{001C}', '\U{001D}', '\U{001E}', '\U{001F}', ' ',
    '\U{0085}', '\U{00A0}', '\U{1680}',
    '\U{2000}', '\U{2001}', '\U{2002}', '\U{2003}', '\U{2004}', '\U{2005}', '\U{2006}', '\U{2007}',
    '\U{2008}', '\U{2009}', '\U{200A}', '\U{2028}', '\U{2029}', '\U{202F}', '\U{205F}', '\U{3000}'
  }

  // ---------------------------------------------------------------------------
  // Decimal numbers

  predicate IsDigit(c: char) {
    '0' <= c <= '9'
  }

  predicate AllDigits(s: string) {
    forall i :: 0 <= i < |s| ==> IsDigit(s[i])
  }

  /** Python `str(n)` for a natural number. */
  function DecimalString(n: nat): (r: string)
    ensures |r| >= 1 && AllDigits(r)
  {
    if n < 10 then [('0' as int + n) as char]
    else DecimalString(n / 10) + [('0' as int + n % 10) as char]
  }

  function DigitsValue(s: string): nat
    requires AllDigits(s)
  {
    if |s| == 0 then 0
    else DigitsValue(s[..|s| - 1]) * 10 + (s[|s| - 1] as int - '0' as int)
  }

  /** Python `int(s)` on a plain run of decimal digits; None where Python raises ValueError. */
  function ParseDecimal(s: string): Option<nat> {
    if |s| > 0 && AllDigits(s) then Some(DigitsValue(s)) else None
  }

  /** `int(str(n)) == n`. */
  lemma {:induction false} ParseDecimalString(n: nat)
    ensures ParseDecimal(DecimalString(n)) == Some(n)
    decreases n
  {
    var s := DecimalString(n);
    if n < 10 {
      assert s[..0] == [];
      assert DigitsValue(s) == s[0] as int - '0' as int == n;
    } else {
      ParseDecimalString(n / 10);
      assert s[..|s| - 1] == DecimalString(n / 10);
      assert s[|s| - 1] as int - '0' as int == n % 10;
      assert DigitsValue(s) == (n / 10) * 10 + n % 10;
    }
  }

  /** Distinct numbers print differently. */
  lemma DecimalStringInjective(m: nat, n: nat)
    requires DecimalString(m) == DecimalString(n)
    ensures m == n
  {
    ParseDecimalString(m);
    ParseDecimalString(n);
  }

  // ---------------------------------------------------------------------------
  // Code-point order of strings (Python `<` on str)

  predicate Less(a: string, b: string) {
    if |a| == 0 then |b| > 0
    else if |b| == 0 then false
    else a[0] < b[0] || (a[0] == b[0] && Less(a[1..], b[1..]))
  }

  lemma {:induction false} LessIrreflexive(a: string)
    ensures !Less(a, a)
  {
    if |a| > 0 {
      LessIrreflexive(a[1..]);
    }
  }

  lemma {:induction false} LessTransitive(a: string, b: string, c: string)
    requires Less(a, b) && Less(b, c)
    ensures Less(a, c)
  {
    if |a| > 0 && |b| > 0 && |c| > 0 && a[0] == b[0] == c[0] {
      LessTransitive(a[1..], b[1..], c[1..]);
    }
  }

  lemma {:induction false} LessTotal(a: string, b: string)
    ensures a == b || Less(a, b) || Less(b, a)
  {
    if |a| > 0 && |b| > 0 && a[0] == b[0] {
      LessTotal(a[1..], b[1..]);
      if a[1..] == b[1..] {
        assert a == [a[0]] + a[1..] && b == [b[0]] + b[1..];
      }
    }
  }

  lemma LessAsymmetric(a: string, b: string)
    requires Less(a, b)
    ensures !Less(b, a)
  {
    if Less(b, a) {
      LessTransitive(a, b, a);
      LessIrreflexive(a);
    }
  }

  // ---------------------------------------------------------------------------
  // Stable sort: Python `sorted(s, key=key, reverse=reverse)`

  /** `a` belongs strictly before `b` in the requested direction. */
  predicate Precedes(a: string, b: string, reverse: bool) {
    if reverse then Less(b, a) else Less(a, b)
  }

  /** No element is preceded by a later one. */
  ghost predicate OrderedBy<T>(s: seq<T>, key: T -> string, reverse: bool) {
    forall i, j :: 0 <= i < j < |s| ==> !Precedes(key(s[j]), key(s[i]), reverse)
  }

  /** Insert `x` before the first element that does not precede it. */
  function Insert<T>(x: T, t: seq<T>, key: T -> string, reverse: bool): (r: seq<T>)
    ensures multiset(r) == multiset(t) + multiset{x}
    ensures |r| == |t| + 1
  {
    if t == [] || !Precedes(key(t[0]), key(x), reverse) then [x] + t
    else
      var r := [t[0]] + Insert(x, t[1..], key, reverse);
      assert t == [t[0]] + t[1..];
      r
  }

  /** Insertion sort; `x` is inserted ahead of equal keys that come after it, so it is stable. */
  function SortedBy<T>(s: seq<T>, key: T -> string, reverse: bool): (r: seq<T>)
    ensures multiset(r) == multiset(s)
    ensures |r| == |s|
  {
    if s == [] then []
    else
      assert s == [s[0]] + s[1..];
      Insert(s[0], SortedBy(s[1..], key, reverse), key, reverse)
  }

  lemma PrecedesTransitive(a: string, b: string, c: string, reverse: bool)
    requires Precedes(a, b, reverse) && Precedes(b, c, reverse)
    ensures Precedes(a, c, reverse)
  {
    if reverse { LessTransitive(c, b, a); } else { LessTransitive(a, b, c); }
  }

  /** "does not precede" is transitive too, because the order is total. */
  lemma NotPrecedesTransitive(a: string, b: string, c: string, reverse: bool)
    requires !Precedes(a, b, reverse) && !Precedes(b, c, reverse)
    ensures !Precedes(a, c, reverse)
  {
    if Precedes(a, c, reverse) {
      LessTotal(a, b);
      LessTotal(b, c);
      if a == b {
      } else if Precedes(b, a, reverse) {
        PrecedesTransitive(b, a, c, reverse);
      }
    }
  }

  lemma {:induction false} InsertOrdered<T>(x: T, t: seq<T>, key: T -> string, reverse: bool)
    requires OrderedBy(t, key, reverse)
    ensures OrderedBy(Insert(x, t, key, reverse), key, reverse)
    decreases |t|
  {
    var r := Insert(x, t, key, reverse);
    if t == [] || !Precedes(key(t[0]), key(x), reverse) {
      forall i, j | 0 <= i < j < |r| ensures !Precedes(key(r[j]), key(r[i]), reverse) {
        if i == 0 && j > 0 {
          assert r[j] == t[j - 1];
          if j - 1 > 0 {
            NotPrecedesTransitive(key(t[j - 1]), key(t[0]), key(x), reverse);
          }
        } else {
          assert r[i] == t[i - 1] && r[j] == t[j - 1];
        }
      }
    } else {
      var rest := Insert(x, t[1..], key, reverse);
      assert OrderedBy(t[1..], key, reverse);
      InsertOrdered(x, t[1..], key, reverse);
      assert multiset(rest) == multiset(t[1..]) + multiset{x};
      forall i, j | 0 <= i < j < |r| ensures !Precedes(key(r[j]), key(r[i]), reverse) {
        if i == 0 {
          assert r[j] == rest[j - 1];
          assert r[j] in multiset(rest);
          assert r[j] in multiset(t[1..]) || r[j] == x;
          if r[j] != x {
            var k :| 0 <= k < |t[1..]| && t[1..][k] == r[j];
            assert t[k + 1] == r[j];
          } else {
            LessTotal(key(t[0]), key(x));
            if Precedes(key(x), key(t[0]), reverse) {
              if reverse { LessAsymmetric(key(t[0]), key(x)); } else { LessAsymmetric(key(x), key(t[0])); }
            }
          }
        } else {
          assert r[i] == rest[i - 1] && r[j] == rest[j - 1];
        }
      }
    }
  }

  /** `sorted` returns an ordered permutation of its input. */
  lemma {:induction false} SortedByOrdered<T>(s: seq<T>, key: T -> string, reverse: bool)
    ensures OrderedBy(SortedBy(s, key, reverse), key, reverse)
    ensures multiset(SortedBy(s, key, reverse)) == multiset(s)
  {
    if s != [] {
      SortedByOrdered(s[1..], key, reverse);
      InsertOrdered(s[0], SortedBy(s[1..], key, reverse), key, reverse);
    }
  }

  /** The first element of a stable sort: the earliest element no other element precedes. */
  ghost predicate IsFirstBest<T>(s: seq<T>, key: T -> string, reverse: bool, i: nat) {
    i < |s|
    && (forall j :: 0 <= j < |s| ==> !Precedes(key(s[j]), key(s[i]), reverse))
    && (forall j :: 0 <= j < i ==> Precedes(key(s[i]), key(s[j]), reverse))
  }

  /** When the first element is not beaten by the best of the rest, it is the first best. */
  lemma FirstBestKeepsHead<T>(s: seq<T>, key: T -> string, reverse: bool, i: nat)
    requires |s| > 1 && IsFirstBest(s[1..], key, reverse, i)
    requires !Precedes(key(s[1 + i]), key(s[0]), reverse)
    ensures IsFirstBest(s, key, reverse, 0)
  {
    var h := key(s[1 + i]);
    forall j | 0 <= j < |s| ensures !Precedes(key(s[j]), key(s[0]), reverse) {
      if j > 0 {
        assert s[j] == s[1..][j - 1];
        NotPrecedesTransitive(key(s[j]), h, key(s[0]), reverse);
      } else {
        LessIrreflexive(key(s[0]));
      }
    }
  }

  /** When the best of the rest beats the first element, it stays the first best. */
  lemma FirstBestFromRest<T>(s: seq<T>, key: T -> string, reverse: bool, i: nat)
    requires |s| > 1 && IsFirstBest(s[1..], key, reverse, i)
    requires Precedes(key(s[1 + i]), key(s[0]), reverse)
    ensures IsFirstBest(s, key, reverse, i + 1)
  {
    var h := key(s[1 + i]);
    forall j | 0 <= j < |s| ensures !Precedes(key(s[j]), h, reverse) {
      if j > 0 {
        assert s[j] == s[1..][j - 1];
      } else if reverse {
        LessAsymmetric(key(s[0]), h);
      } else {
        LessAsymmetric(h, key(s[0]));
      }
    }
    forall j | 0 < j < i + 1 ensures Precedes(h, key(s[j]), reverse) {
      assert s[j] == s[1..][j - 1];
    }
  }

  /** Stability at the head: `sorted(s, ...)[0]` is the earliest best element of `s`. */
  lemma {:induction false} SortedByHead<T>(s: seq<T>, key: T -> string, reverse: bool)
    requires |s| > 0
    ensures exists i: nat :: IsFirstBest(s, key, reverse, i) && SortedBy(s, key, reverse)[0] == s[i]
  {
    var rest := SortedBy(s[1..], key, reverse);
    if |s| == 1 {
      LessIrreflexive(key(s[0]));
      assert IsFirstBest(s, key, reverse, 0);
    } else {
      SortedByHead(s[1..], key, reverse);
      var i: nat :| IsFirstBest(s[1..], key, reverse, i) && rest[0] == s[1..][i];
      if !Precedes(key(s[1 + i]), key(s[0]), reverse) {
        FirstBestKeepsHead(s, key, reverse, i);
      } else {
        FirstBestFromRest(s, key, reverse, i);
      }
    }
  }

  // ---------------------------------------------------------------------------
  // Distinct elements: Python `sorted(set(...))`

  predicate Distinct<T(==)>(s: seq<T>) {
    forall i, j :: 0 <= i < j < |s| ==> s[i] != s[j]
  }

  /** The elements of `s` in first-occurrence order, without repeats. */
  function Dedup<T(==,!new)>(s: seq<T>): (r: seq<T>)
    ensures Distinct(r)
    ensures forall x :: x in r <==> x in s
  {
    if s == [] then []
    else
      var rest := Dedup(s[..|s| - 1]);
      assert s == s[..|s| - 1] + [s[|s| - 1]];
      if s[|s| - 1] in rest then rest else rest + [s[|s| - 1]]
  }

  lemma DistinctFromMultiset<T>(s: seq<T>, t: seq<T>)
    requires Distinct(s) && multiset(s) == multiset(t)
    ensures Distinct(t)
  {
    forall i, j | 0 <= i < j < |t| ensures t[i] != t[j] {
      if t[i] == t[j] {
        var x := t[i];
        assert t == t[..i] + [x] + t[i + 1..j] + [x] + t[j + 1..];
        assert multiset(t)[x] >= 2;
        DistinctCount(s, x);
      }
    }
  }

  lemma {:induction false} DistinctCount<T>(s: seq<T>, x: T)
    requires Distinct(s)
    ensures multiset(s)[x] <= 1
  {
    if s != [] {
      var last := s[|s| - 1];
      var init := s[..|s| - 1];
      assert s == init + [last];
      assert Distinct(init);
      DistinctCount(init, x);
      if x == last {
        assert x !in init;
      }
    }
  }

  /**
   * Python `sorted(set(names))` on strings: the distinct names in increasing
   * order, each once.
   */
  function SortedSet(names: seq<string>): (r: seq<string>)
    ensures Distinct(r)
    ensures forall x :: x in r <==> x in names
    ensures OrderedBy(r, (x: string) => x, false)
  {
    var d := Dedup(names);
    var r := SortedBy(d, (x: string) => x, false);
    SortedByOrdered(d, (x: string) => x, false);
    DistinctFromMultiset(d, r);
    assert forall x :: x in r <==> x in multiset(d);
    r
  }

  /** A distinct ordered name list is strictly increasing. */
  lemma SortedSetIncreasing(names: seq<string>, i: int, j: int)
    requires 0 <= i < j < |SortedSet(names)|
    ensures Less(SortedSet(names)[i], SortedSet(names)[j])
  {
    var r := SortedSet(names);
    LessTotal(r[i], r[j]);
  }

  // ---------------------------------------------------------------------------
  // startswith, endswith and list comprehensions with a condition

  /** Python `s.startswith(p)`. */
  predicate StartsWith(s: string, p: string) {
    |p| <= |s| && s[..|p|] == p
  }

  /** Python `s.endswith(p)`. */
  predicate EndsWith(s: string, p: string) {
    |p| <= |s| && s[|s| - |p|..] == p
  }

  /** Python `[x for x in s if keep(x)]`. */
  function Filter<T(!new)>(s: seq<T>, keep: T -> bool): (r: seq<T>)
    ensures |r| <= |s|
    ensures forall x :: x in r <==> x in s && keep(x)
  {
    if s == [] then []
    else
      var init := s[..|s| - 1];
      var last := s[|s| - 1];
      assert s == init + [last];
      Filter(init, keep) + (if keep(last) then [last] else [])
  }

  /** Nothing passes the filter when no element is kept. */
  lemma {:induction false} FilterNone<T(!new)>(s: seq<T>, keep: T -> bool)
    requires forall x :: x in s ==> !keep(x)
    ensures Filter(s, keep) == []
  {
    if s != [] {
      FilterNone(s[..|s| - 1], keep);
    }
  }

  /** Filtering keeps the relative order: it distributes over concatenation. */
  lemma {:induction false} FilterAppend<T(!new)>(a: seq<T>, b: seq<T>, keep: T -> bool)
    ensures Filter(a + b, keep) == Filter(a, keep) + Filter(b, keep)
    decreases |b|
  {
    if b != [] {
      var init := b[..|b| - 1];
      var last := b[|b| - 1];
      var ab := a + b;
      assert ab[..|ab| - 1] == a + init;
      assert ab[|ab| - 1] == last;
      var tail := if keep(last) then [last] else [];
      assert Filter(ab, keep) == Filter(a + init, keep) + tail;
      assert Filter(b, keep) == Filter(init, keep) + tail;
      FilterAppend(a, init, keep);
    } else {
      assert a + b == a;
    }
  }
}
