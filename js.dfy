/**
 * The few pieces of JavaScript semantics the app's list updaters and string
 * helpers rely on: strings as UTF-16 code units, `trim` and `\s`, `includes`,
 * `Array.prototype.filter`, the `Array.isArray(x) ? x : []` guard, and a
 * callback that throws.
 */
module Js {
  import opened Wrappers

  /** One UTF-16 code unit: a JavaScript string is a sequence of these. */
  type CodeUnit = u: int | 0 <= u < 0x1_0000

  type JsString = seq<CodeUnit>

  /**
   * WhiteSpace and LineTerminator of ECMA-262: the code units that both
   * `String.prototype.trim` removes and the regular-expression class `\s`
   * matches.
   */
  predicate IsWhiteSpace(u: CodeUnit) {
    || u == 0x09 || u == 0x0A || u == 0x0B || u == 0x0C || u == 0x0D
    || u == 0x20 || u == 0xA0 || u == 0x1680 || (0x2000 <= u <= 0x200A)
    || u == 0x2028 || u == 0x2029 || u == 0x202F || u == 0x205F
    || u == 0x3000 || u == 0xFEFF
  }

  predicate IsBlank(s: JsString) {
    forall i :: 0 <= i < |s| ==> IsWhiteSpace(s[i])
  }

  // Drops leading white space: the part a leading `\s*` in a regular expression skips.
  function TrimStart(s: JsString): (r: JsString)
    ensures |r| <= |s| && r == s[|s| - |r|..]
    ensures IsBlank(s[..|s| - |r|])
    ensures r == [] || !IsWhiteSpace(r[0])
  {
    if |s| > 0 && IsWhiteSpace(s[0]) then
      var r := TrimStart(s[1..]);
      assert s[1..][..|s| - 1 - |r|] == s[1..|s| - |r|];
      r
    else
      s
  }

  /** Drops trailing white space. */
  function TrimEnd(s: JsString): (r: JsString)
    ensures |r| <= |s| && r == s[..|r|]
    ensures IsBlank(s[|r|..])
    ensures r == [] || !IsWhiteSpace(r[|r| - 1])
  {
    if |s| > 0 && IsWhiteSpace(s[|s| - 1]) then
      var r := TrimEnd(s[..|s| - 1]);
      assert s[|r|..] == s[..|s| - 1][|r|..] + [s[|s| - 1]];
      r
    else
      s
  }

  /** `String.prototype.trim`. */
  function Trim(s: JsString): (r: JsString)
    ensures r == [] <==> IsBlank(s)
    ensures r != [] ==> !IsWhiteSpace(r[0]) && !IsWhiteSpace(r[|r| - 1])
    ensures |r| <= |s|
  {
    var t := TrimStart(s);
    var r := TrimEnd(t);
    assert r == [] ==> IsBlank(s) by {
      if r == [] {
        assert s == s[..|s| - |t|] + t;
        assert IsBlank(t[|r|..]);
      }
    }
    assert r != [] ==> r[0] == t[0];
    r
  }

  /**
   * `r` sits in `s` at offset `k`, and what lies before and after it is
   * white space.
   */
  predicate InfixBetweenBlanks(s: JsString, k: int, r: JsString) {
    && 0 <= k && k + |r| <= |s|
    && r == s[k..k + |r|]
    && IsBlank(s[..k]) && IsBlank(s[k + |r|..])
  }

  /**
   * What `trim` returns: the input with its leading and trailing white space
   * cut off, that is, the infix of the input that starts right after its
   * leading white space.
   */
  lemma TrimIsInfix(s: JsString)
    ensures InfixBetweenBlanks(s, |s| - |TrimStart(s)|, Trim(s))
  {
    var t := TrimStart(s);
    var r := TrimEnd(t);
    assert Trim(s) == r;
    BlankInfix(s, t, r);
  }

  /** A prefix `r` of a suffix `t` of `s`, where what `t` drops from `s` and what `r` drops from `t` are blank. */
  lemma BlankInfix(s: JsString, t: JsString, r: JsString)
    requires |t| <= |s| && t == s[|s| - |t|..] && IsBlank(s[..|s| - |t|])
    requires |r| <= |t| && r == t[..|r|] && IsBlank(t[|r|..])
    ensures InfixBetweenBlanks(s, |s| - |t|, r)
  {
    assert t[|r|..] == s[|s| - |t| + |r|..];
  }

  /** Trimming twice is trimming once. */
  lemma TrimIdempotent(s: JsString)
    ensures Trim(Trim(s)) == Trim(s)
  {
  }

  /** White space in front of a string makes no difference once it is trimmed. */
  lemma TrimIgnoresBlankPrefix(w: JsString, t: JsString)
    requires IsBlank(w)
    ensures Trim(w + t) == Trim(t)
  {
    TrimStartIgnoresBlankPrefix(w, t);
  }

  lemma {:induction false} TrimStartIgnoresBlankPrefix(w: JsString, t: JsString)
    requires IsBlank(w)
    ensures TrimStart(w + t) == TrimStart(t)
  {
    if w != [] {
      assert (w + t)[0] == w[0];
      assert (w + t)[1..] == w[1..] + t;
      TrimStartIgnoresBlankPrefix(w[1..], t);
    } else {
      assert w + t == t;
    }
  }

  predicate StartsWith(s: JsString, prefix: JsString) {
    |prefix| <= |s| && s[..|prefix|] == prefix
  }

  /** `s.includes(sub)`: `sub` occurs in `s` at some position. */
  predicate Contains(s: JsString, sub: JsString) {
    exists i :: 0 <= i <= |s| - |sub| && StartsWith(s[i..], sub)
  }

  /** `Array.prototype.filter`: the elements that satisfy `keep`, in order. */
  function Filter<T(==,!new)>(xs: seq<T>, keep: T -> bool): (r: seq<T>)
    ensures |r| <= |xs|
    ensures forall x :: x in r <==> x in xs && keep(x)
  {
    if |xs| == 0 then [] else (if keep(xs[0]) then [xs[0]] else []) + Filter(xs[1..], keep)
  }

  /** Filtering distributes over concatenation: it keeps the relative order of what it keeps. */
  lemma {:induction false} FilterAppend<T(!new)>(xs: seq<T>, ys: seq<T>, keep: T -> bool)
    ensures Filter(xs + ys, keep) == Filter(xs, keep) + Filter(ys, keep)
  {
    if |xs| == 0 {
      assert xs + ys == ys;
    } else {
      assert (xs + ys)[1..] == xs[1..] + ys;
      FilterAppend(xs[1..], ys, keep);
    }
  }

  /** A list whose elements all pass comes back unchanged. */
  lemma {:induction false} FilterKeepsAll<T(!new)>(xs: seq<T>, keep: T -> bool)
    requires forall x :: x in xs ==> keep(x)
    ensures Filter(xs, keep) == xs
  {
    if |xs| > 0 {
      FilterKeepsAll(xs[1..], keep);
    }
  }

  /** Filtering twice with the same test is filtering once. */
  lemma FilterIdempotent<T(!new)>(xs: seq<T>, keep: T -> bool)
    ensures Filter(Filter(xs, keep), keep) == Filter(xs, keep)
  {
    FilterKeepsAll(Filter(xs, keep), keep);
  }

  predicate Distinct<T(==)>(xs: seq<T>) {
    forall i, j :: 0 <= i < j < |xs| ==> xs[i] != xs[j]
  }

  /** Filtering a list without repeats yields a list without repeats. */
  lemma {:induction false} FilterDistinct<T(!new)>(xs: seq<T>, keep: T -> bool)
    requires Distinct(xs)
    ensures Distinct(Filter(xs, keep))
  {
    if |xs| > 0 {
      FilterDistinct(xs[1..], keep);
      var rest := Filter(xs[1..], keep);
      assert xs[0] !in xs[1..] by {
        forall j | 0 <= j < |xs[1..]| ensures xs[1..][j] != xs[0] {
          assert xs[1..][j] == xs[j + 1];
        }
      }
      assert xs[0] !in rest;
    }
  }

  /** Removing one value from a list without repeats that holds it shortens the list by one. */
  lemma {:induction false} FilterRemovesOne<T(!new)>(xs: seq<T>, v: T)
    requires Distinct(xs) && v in xs
    ensures |Filter(xs, x => x != v)| == |xs| - 1
  {
    if xs[0] == v {
      assert v !in xs[1..] by {
        forall j | 0 <= j < |xs[1..]| ensures xs[1..][j] != v {
          assert xs[1..][j] == xs[j + 1];
        }
      }
      FilterKeepsAll(xs[1..], x => x != v);
    } else {
      FilterRemovesOne(xs[1..], v);
    }
  }

  /** A list holding an element that fails the test gets strictly shorter. */
  lemma {:induction false} FilterDropsRejected<T(!new)>(xs: seq<T>, keep: T -> bool, x: T)
    requires x in xs && !keep(x)
    ensures |Filter(xs, keep)| < |xs|
  {
    if xs[0] != x {
      FilterDropsRejected(xs[1..], keep, x);
    }
  }

  /** `Array.isArray(v) ? v : []`, where `None` stands for any value that is not an array. */
  function AsArray<T>(v: Option<seq<T>>): seq<T> {
    match v
    case Some(xs) => xs
    case None => []
  }

  /** The result of a state updater whose callback may throw a `TypeError`. */
  datatype Outcome<T> = Returns(value: T) | Throws
}
