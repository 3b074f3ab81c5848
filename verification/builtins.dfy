/**
  The JavaScript string and array built-ins the handlers rely on, with the
  semantics ECMAScript gives them: `startsWith`, `includes`, `replace` with a
  one-character pattern (first occurrence only), `trim`, `split` and `join` on
  a one-character separator, `Array.prototype.some`, and `String.length`
  (which counts UTF-16 code units, not characters).
*/
module Builtins {
  import opened Wrappers

  /** `s.startsWith(p)` */
  predicate StartsWith(s: string, p: string) {
    |p| <= |s| && s[..|p|] == p
  }

  /** `sub` occurs in `s` starting at position `i`. */
  predicate OccursAt(s: string, sub: string, i: int) {
    0 <= i && i + |sub| <= |s| && s[i..i + |sub|] == sub
  }

  /** `s.includes(sub)`, scanning left to right. */
  predicate Includes(s: string, sub: string)
    decreases |s|
  {
    StartsWith(s, sub) || (|s| > 0 && Includes(s[1..], sub))
  }

  lemma {:induction false} IncludesIff(s: string, sub: string)
    ensures Includes(s, sub) <==> exists i :: OccursAt(s, sub, i)
    decreases |s|
  {
    if StartsWith(s, sub) {
      assert OccursAt(s, sub, 0);
    }
    if |s| > 0 {
      IncludesIff(s[1..], sub);
      if Includes(s[1..], sub) {
        var i :| OccursAt(s[1..], sub, i);
        assert s[1..][i..i + |sub|] == s[i + 1..i + 1 + |sub|];
        assert OccursAt(s, sub, i + 1);
      }
      if exists i :: OccursAt(s, sub, i) {
        var i :| OccursAt(s, sub, i);
        if i > 0 {
          assert s[1..][i - 1..i - 1 + |sub|] == s[i..i + |sub|];
          assert OccursAt(s[1..], sub, i - 1);
        } else {
          assert StartsWith(s, sub);
        }
      }
    }
  }

  /** Whatever a string ends with, it includes. */
  lemma {:induction false} IncludesSuffix(p: string, sub: string)
    ensures Includes(p + sub, sub)
    decreases |p|
  {
    if |p| > 0 {
      assert (p + sub)[1..] == p[1..] + sub;
      IncludesSuffix(p[1..], sub);
    } else {
      assert p + sub == sub;
    }
  }

  /** Position of the first `c` in `s`, or `|s|` when there is none (JavaScript's -1). */
  function FirstIndex(s: string, c: char): (i: nat)
    ensures i <= |s|
    ensures i < |s| <==> c in s
    ensures c !in s[..i]
    ensures i < |s| ==> s[i] == c
    decreases |s|
  {
    if |s| == 0 then 0
    else if s[0] == c then 0
    else
      var j := FirstIndex(s[1..], c);
      assert s[..j + 1] == [s[0]] + s[1..][..j];
      j + 1
  }

  /**
    `s.replace(c, '')` for a one-character pattern: only the FIRST occurrence
    of `c` is removed, wherever it stands.
  */
  function RemoveFirst(s: string, c: char): (r: string)
    ensures c !in s ==> r == s
    ensures c in s ==> |r| == |s| - 1
    decreases |s|
  {
    if |s| == 0 then s
    else if s[0] == c then s[1..]
    else [s[0]] + RemoveFirst(s[1..], c)
  }

  /** What `RemoveFirst` drops is the character at the first occurrence, and only it. */
  lemma {:induction false} RemoveFirstAt(s: string, c: char)
    requires c in s
    ensures RemoveFirst(s, c) == s[..FirstIndex(s, c)] + s[FirstIndex(s, c) + 1..]
    decreases |s|
  {
    if s[0] != c {
      var t := s[1..];
      assert c in t;
      RemoveFirstAt(t, c);
      var j := FirstIndex(t, c);
      assert FirstIndex(s, c) == j + 1;
      assert RemoveFirst(s, c) == [s[0]] + RemoveFirst(t, c);
      assert s == [s[0]] + t;
      DropAfterCons(s[0], t, j);
    } else {
      assert FirstIndex(s, c) == 0 && s[..0] + s[1..] == s[1..];
    }
  }

  /** Dropping position `j + 1` of `[x] + t` is dropping position `j` of `t`, behind `x`. */
  lemma DropAfterCons(x: char, t: string, j: nat)
    requires j < |t|
    ensures ([x] + t)[..j + 1] + ([x] + t)[j + 2..] == [x] + (t[..j] + t[j + 1..])
  {
    assert ([x] + t)[..j + 1] == [x] + t[..j];
    assert ([x] + t)[j + 2..] == t[j + 1..];
  }

  /** The characters ECMAScript's `trim` removes: WhiteSpace and LineTerminator. */
  const WhiteSpaceChars: set<char> := {
    '\t', '\n', '\U{000B}', '\U{000C}', '\r', ' ', '\U{00A0}', '\U{1680}',
    '\U{2000}', '\U{2001}', '\U{2002}', '\U{2003}', '\U{2004}', '\U{2005}',
    '\U{2006}', '\U{2007}', '\U{2008}', '\U{2009}', '\U{200A}',
    '\U{2028}', '\U{2029}', '\U{202F}', '\U{205F}', '\U{3000}', '\U{FEFF}'}

  predicate IsWhiteSpace(c: char) {
    c in WhiteSpaceChars
  }

  predicate AllWhiteSpace(s: string) {
    forall k | 0 <= k < |s| :: IsWhiteSpace(s[k])
  }

  /** Neither the first nor the last character is white space. */
  predicate IsTrimmed(s: string) {
    s == [] || (!IsWhiteSpace(s[0]) && !IsWhiteSpace(s[|s| - 1]))
  }

  /** The end of the white space that starts at position `i`. */
  function SpaceFrom(s: string, i: nat): (n: nat)
    requires i <= |s|
    ensures i <= n <= |s|
    ensures forall k | i <= k < n :: IsWhiteSpace(s[k])
    ensures n < |s| ==> !IsWhiteSpace(s[n])
    decreases |s| - i
  {
    if i < |s| && IsWhiteSpace(s[i]) then SpaceFrom(s, i + 1) else i
  }

  /** The start of the white space that ends at position `j`, not going below `lo`. */
  function SpaceBefore(s: string, lo: nat, j: nat): (n: nat)
    requires lo <= j <= |s|
    ensures lo <= n <= j
    ensures forall k | n <= k < j :: IsWhiteSpace(s[k])
    ensures n > lo ==> !IsWhiteSpace(s[n - 1])
    decreases j
  {
    if j > lo && IsWhiteSpace(s[j - 1]) then SpaceBefore(s, lo, j - 1) else j
  }

  /**
    `s.trim()`: the infix of `s` left after removing the white space at both
    ends; it neither starts nor ends with white space.
  */
  function Trim(s: string): (r: string)
    ensures IsTrimmed(r)
    ensures var d := SpaceFrom(s, 0);
      && d + |r| <= |s|
      && r == s[d..d + |r|]
      && (forall k | 0 <= k < d :: IsWhiteSpace(s[k]))
      && (forall k | d + |r| <= k < |s| :: IsWhiteSpace(s[k]))
  {
    var d := SpaceFrom(s, 0);
    var e := SpaceBefore(s, d, |s|);
    assert d < |s| ==> e > d;
    s[d..e]
  }

  /** A string trims to nothing exactly when it is all white space. */
  lemma TrimEmptyIff(s: string)
    ensures Trim(s) == [] <==> AllWhiteSpace(s)
  {
    var d := SpaceFrom(s, 0);
    if Trim(s) != [] {
      assert s[d] == Trim(s)[0];
    }
  }

  /** Trimming a string that is already trimmed changes nothing. */
  lemma TrimTrimmed(s: string)
    requires IsTrimmed(s)
    ensures Trim(s) == s
  {
    if s != [] {
      assert SpaceFrom(s, 0) == 0;
      assert SpaceBefore(s, 0, |s|) == |s|;
    }
  }

  /** `xs.join(sep)` */
  function Join(xs: seq<string>, sep: string): string {
    if |xs| == 0 then ""
    else if |xs| == 1 then xs[0]
    else xs[0] + sep + Join(xs[1..], sep)
  }

  /**
    `s.split(sep)` for a one-character separator: the pieces between
    separators, always at least one (the empty string splits to `[""]`).
  */
  function Split(s: string, sep: char): (r: seq<string>)
    ensures |r| >= 1
    ensures forall k | 0 <= k < |r| :: sep !in r[k]
    decreases |s|
  {
    if |s| == 0 then [""]
    else if s[0] == sep then [""] + Split(s[1..], sep)
    else
      var t := Split(s[1..], sep);
      [[s[0]] + t[0]] + t[1..]
  }

  /** Joining the pieces of a split with the separator gives back the text. */
  lemma {:induction false} SplitJoin(s: string, sep: char)
    ensures Join(Split(s, sep), [sep]) == s
    decreases |s|
  {
    if |s| > 0 {
      SplitJoin(s[1..], sep);
      var t := Split(s[1..], sep);
      if s[0] == sep {
        assert Split(s, sep) == [""] + t;
        assert Join(Split(s, sep), [sep]) == "" + [sep] + Join(t, [sep]);
      } else if |t| == 1 {
        assert Split(s, sep) == [[s[0]] + t[0]];
      } else {
        var r := Split(s, sep);
        assert r == [[s[0]] + t[0]] + t[1..];
        assert r[1..] == t[1..];
        assert Join(r, [sep]) == [s[0]] + t[0] + [sep] + Join(t[1..], [sep]);
        assert Join(t, [sep]) == t[0] + [sep] + Join(t[1..], [sep]);
      }
    }
  }

  /** The first piece of a split is the text before the first separator. */
  lemma {:induction false} SplitHead(s: string, sep: char)
    ensures Split(s, sep)[0] == s[..FirstIndex(s, sep)]
    ensures |Split(s, sep)| == 1 <==> sep !in s
    decreases |s|
  {
    if |s| > 0 && s[0] != sep {
      SplitHead(s[1..], sep);
      assert s[..FirstIndex(s, sep)] == [s[0]] + s[1..][..FirstIndex(s[1..], sep)];
    }
  }

  /** Splitting at a separator is the concatenation of the splits of both sides. */
  lemma {:induction false} SplitAppend(a: string, sep: char, b: string)
    requires sep !in a
    ensures Split(a + [sep] + b, sep) == [a] + Split(b, sep)
    decreases |a|
  {
    if |a| == 0 {
      assert a + [sep] + b == [sep] + b;
      assert (a + [sep] + b)[1..] == b;
    } else {
      assert (a + [sep] + b)[1..] == a[1..] + [sep] + b;
      SplitAppend(a[1..], sep, b);
      assert [a[0]] + a[1..] == a;
    }
  }

  /** Splitting text joined at a separator gives the pieces of both sides, in order. */
  lemma {:induction false} SplitConcat(a: string, sep: char, b: string)
    ensures Split(a + [sep] + b, sep) == Split(a, sep) + Split(b, sep)
    decreases |a|
  {
    if |a| == 0 {
      assert a + [sep] + b == [sep] + b;
      SplitCons(sep, b, sep);
    } else {
      var tail := a[1..] + [sep] + b;
      assert a + [sep] + b == [a[0]] + tail;
      assert a == [a[0]] + a[1..];
      SplitConcat(a[1..], sep, b);
      SplitCons(a[0], tail, sep);
      SplitCons(a[0], a[1..], sep);
    }
  }

  /** How one leading character changes a split: a new empty piece, or a longer first piece. */
  lemma SplitCons(c: char, s: string, sep: char)
    ensures c == sep ==> Split([c] + s, sep) == [""] + Split(s, sep)
    ensures c != sep ==> Split([c] + s, sep) == [[c] + Split(s, sep)[0]] + Split(s, sep)[1..]
  {
    assert ([c] + s)[0] == c && ([c] + s)[1..] == s;
  }

  /** Everything after the first separator splits into the remaining pieces. */
  lemma SplitTail(s: string, sep: char)
    requires sep in s
    ensures s == s[..FirstIndex(s, sep)] + [sep] + s[FirstIndex(s, sep) + 1..]
    ensures Split(s, sep)[1..] == Split(s[FirstIndex(s, sep) + 1..], sep)
  {
    var i := FirstIndex(s, sep);
    AroundIndex(s, i);
    SplitAppend(s[..i], sep, s[i + 1..]);
  }

  /** A string is what comes before position `i`, the character there, and what follows. */
  lemma AroundIndex(s: string, i: nat)
    requires i < |s|
    ensures s == s[..i] + [s[i]] + s[i + 1..]
  {
  }

  /** The number of UTF-16 code units of `s`, which is what JavaScript's `.length` counts. */
  function Utf16Length(s: string): (n: nat)
    ensures n >= |s|
    ensures n <= 2 * |s|
  {
    if |s| == 0 then 0
    else (if s[0] as int >= 0x1_0000 then 2 else 1) + Utf16Length(s[1..])
  }

  /** Case folding of one character; only the ASCII letters 'A' to 'Z' change. */
  function LowerChar(c: char): (d: char)
    ensures 'A' <= c <= 'Z' ==> d as int == c as int + 32
    ensures !('A' <= c <= 'Z') ==> d == c
    ensures !('A' <= d <= 'Z')
  {
    if 'A' <= c <= 'Z' then (c as int + 32) as char else c
  }

  /** Lower-casing a string, character by character. */
  function Lower(s: string): (r: string)
    ensures |r| == |s|
    ensures forall i | 0 <= i < |s| :: r[i] == LowerChar(s[i])
  {
    seq(|s|, i requires 0 <= i < |s| => LowerChar(s[i]))
  }

  /** Lower-casing twice is lower-casing once. */
  lemma LowerIdempotent(s: string)
    ensures Lower(Lower(s)) == Lower(s)
  {
  }

  /** `xs.some(p)`, scanning left to right. */
  predicate Any<T>(xs: seq<T>, p: T -> bool) {
    |xs| > 0 && (p(xs[0]) || Any(xs[1..], p))
  }

  lemma {:induction false} AnyIff<T>(xs: seq<T>, p: T -> bool)
    ensures Any(xs, p) <==> exists k :: 0 <= k < |xs| && p(xs[k])
  {
    if |xs| > 0 {
      AnyIff(xs[1..], p);
      if exists k :: 0 <= k < |xs| && p(xs[k]) {
        var k :| 0 <= k < |xs| && p(xs[k]);
        if k > 0 { assert xs[1..][k - 1] == xs[k]; }
      }
      if Any(xs[1..], p) {
        var k :| 0 <= k < |xs| - 1 && p(xs[1..][k]);
        assert xs[k + 1] == xs[1..][k];
      }
    }
  }

  /** `xs.find(p)`: the first element satisfying `p`, if any. */
  function Find<T(==)>(xs: seq<T>, p: T -> bool): (r: Option<T>)
    ensures r.None? <==> forall k | 0 <= k < |xs| :: !p(xs[k])
    ensures r.Some? ==>
              exists k :: 0 <= k < |xs| && xs[k] == r.value && p(xs[k]) &&
                forall j | 0 <= j < k :: !p(xs[j])
  {
    if |xs| == 0 then None
    else if p(xs[0]) then Some(xs[0])
    else
      var r := Find(xs[1..], p);
      assert forall k | 0 < k < |xs| :: xs[k] == xs[1..][k - 1];
      if r.Some? then
        var k :| 0 <= k < |xs| - 1 && xs[1..][k] == r.value && p(xs[1..][k]) &&
                 forall j | 0 <= j < k :: !p(xs[1..][j]);
        assert xs[k + 1] == r.value && forall j | 0 <= j < k + 1 :: !p(xs[j]);
        r
      else r
  }

  /** `xs.filter(p)`: the elements satisfying `p`, in their original order. */
  function Filter<T(==)>(xs: seq<T>, p: T -> bool): (r: seq<T>)
    ensures |r| <= |xs|
    ensures forall k | 0 <= k < |r| :: r[k] in xs && p(r[k])
    ensures forall k | 0 <= k < |xs| && p(xs[k]) :: xs[k] in r
    ensures |r| == 0 <==> Find(xs, p).None?
    ensures |r| > 0 ==> r[0] == Find(xs, p).value
    ensures multiset(r) <= multiset(xs)
  {
    if |xs| == 0 then []
    else
      assert xs == [xs[0]] + xs[1..];
      assert forall k | 0 < k < |xs| :: xs[k] == xs[1..][k - 1];
      if p(xs[0]) then [xs[0]] + Filter(xs[1..], p)
      else Filter(xs[1..], p)
  }
}
