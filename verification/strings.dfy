/**
 * The string operations the server relies on, restricted to what it uses:
 * ASCII upper-casing (`str.upper`), substring containment (`in`),
 * `sep.join(parts)` and, as its inverse, `s.split(c)` on a single character.
 */
module Strings {

  predicate IsAsciiLower(c: char) { 'a' <= c <= 'z' }

  /** Upper-case one character; only the ASCII letters a-z change. */
  function UpperChar(c: char): (u: char)
    ensures !IsAsciiLower(u)
    ensures IsAsciiLower(c) ==> 'A' <= u <= 'Z'
    ensures !IsAsciiLower(c) ==> u == c
  {
    if IsAsciiLower(c) then (c as int - 'a' as int + 'A' as int) as char else c
  }

  /** Two strings that differ only in the case of their ASCII letters. */
  predicate SameUpToCase(a: string, b: string) {
    |a| == |b| && forall i :: 0 <= i < |a| ==> UpperChar(a[i]) == UpperChar(b[i])
  }

  /**
   * `s.upper()` for ASCII text: the result differs from `s` only in letter
   * case, holds no lower-case ASCII letter, and keeps every other character.
   */
  function Upper(s: string): (r: string)
    ensures SameUpToCase(r, s)
    ensures forall i :: 0 <= i < |r| ==> !IsAsciiLower(r[i])
    ensures forall i :: 0 <= i < |s| && !IsAsciiLower(s[i]) ==> r[i] == s[i]
  {
    seq(|s|, i requires 0 <= i < |s| => UpperChar(s[i]))
  }

  /** Upper-casing twice is upper-casing once. */
  lemma UpperIdempotent(s: string)
    ensures Upper(Upper(s)) == Upper(s)
  {
    var r := Upper(s);
    forall i | 0 <= i < |r| ensures Upper(r)[i] == r[i] {
      assert !IsAsciiLower(r[i]);
    }
  }

  lemma UpperConcat(a: string, b: string)
    ensures Upper(a + b) == Upper(a) + Upper(b)
  {
  }

  lemma UpperSlice(s: string, i: nat, j: nat)
    requires i <= j <= |s|
    ensures Upper(s[i..j]) == Upper(s)[i..j]
  {
  }

  /** `needle` occurs in `hay` starting at position `i`. */
  predicate MatchAt(needle: string, hay: string, i: nat) {
    i + |needle| <= |hay| && hay[i..i + |needle|] == needle
  }

  /** Python's `needle in hay` for strings. */
  predicate IsInfix(needle: string, hay: string) {
    exists i: nat | i <= |hay| :: MatchAt(needle, hay, i)
  }

  /** Containment is transitive. */
  lemma InfixTransitive(a: string, b: string, c: string)
    requires IsInfix(a, b) && IsInfix(b, c)
    ensures IsInfix(a, c)
  {
    var i: nat :| i <= |b| && MatchAt(a, b, i);
    var j: nat :| j <= |c| && MatchAt(b, c, j);
    assert i + |a| <= |b| && j + |b| <= |c|;
    forall k | 0 <= k < |a|
      ensures c[j + i..j + i + |a|][k] == a[k]
    {
      assert a[k] == b[i + k] == c[j + i + k];
    }
    assert MatchAt(a, c, j + i);
  }

  /** Upper-casing keeps containment. */
  lemma InfixUpper(a: string, b: string)
    requires IsInfix(a, b)
    ensures IsInfix(Upper(a), Upper(b))
  {
    var i: nat :| i <= |b| && MatchAt(a, b, i);
    UpperSlice(b, i, i + |a|);
    assert MatchAt(Upper(a), Upper(b), i);
  }

  /** Python's `sep.join(parts)`. */
  function Join(sep: string, parts: seq<string>): (r: string)
    ensures |parts| == 0 ==> r == ""
    ensures |parts| >= 1 ==> |r| == Offset(sep, parts, |parts| - 1) + |parts[|parts| - 1]|
    decreases |parts|
  {
    if |parts| == 0 then ""
    else if |parts| == 1 then parts[0]
    else parts[0] + sep + Join(sep, parts[1..])
  }

  /** Position at which `parts[k]` starts inside `Join(sep, parts)`. */
  function Offset(sep: string, parts: seq<string>, k: nat): nat
    requires k <= |parts|
    decreases k
  {
    if k == 0 then 0 else |parts[0]| + |sep| + Offset(sep, parts[1..], k - 1)
  }

  /**
   * `Join` lays the parts out in order: part k sits at `Offset(sep, parts, k)`,
   * a separator follows every part but the last, and the text ends with the last part.
   */
  lemma {:induction false} JoinAt(sep: string, parts: seq<string>, k: nat)
    requires k < |parts|
    ensures Offset(sep, parts, k) + |parts[k]| <= |Join(sep, parts)|
    ensures Join(sep, parts)[Offset(sep, parts, k)..Offset(sep, parts, k) + |parts[k]|] == parts[k]
    ensures k + 1 < |parts| ==>
      Offset(sep, parts, k) + |parts[k]| + |sep| <= |Join(sep, parts)| &&
      Join(sep, parts)[Offset(sep, parts, k) + |parts[k]|..Offset(sep, parts, k) + |parts[k]| + |sep|] == sep
    ensures k + 1 == |parts| ==> |Join(sep, parts)| == Offset(sep, parts, k) + |parts[k]|
    decreases k
  {
    if k == 0 {
      if |parts| > 1 {
        assert Join(sep, parts) == parts[0] + sep + Join(sep, parts[1..]);
      }
    } else {
      var rest := parts[1..];
      var head := parts[0] + sep;
      assert Join(sep, parts) == head + Join(sep, rest);
      JoinAt(sep, rest, k - 1);
      var o := Offset(sep, rest, k - 1);
      assert Offset(sep, parts, k) == |head| + o;
      assert rest[k - 1] == parts[k];
      SliceAfter(head, Join(sep, rest), o, o + |parts[k]|);
      if k + 1 < |parts| {
        SliceAfter(head, Join(sep, rest), o + |parts[k]|, o + |parts[k]| + |sep|);
      }
    }
  }

  lemma SliceAfter(a: string, b: string, i: nat, j: nat)
    requires i <= j <= |b|
    ensures (a + b)[|a| + i..|a| + j] == b[i..j]
  {
  }

  /** A character absent from the separator and every part is absent from the join. */
  lemma {:induction false} JoinAvoids(c: char, sep: string, parts: seq<string>)
    requires c !in sep
    requires forall i :: 0 <= i < |parts| ==> c !in parts[i]
    ensures c !in Join(sep, parts)
    decreases |parts|
  {
    if |parts| > 1 {
      JoinAvoids(c, sep, parts[1..]);
    }
  }

  /** Python's `s.split(c)` for a one-character separator. */
  function Split(s: string, c: char): (r: seq<string>)
    ensures |r| >= 1
    decreases |s|
  {
    if |s| == 0 then [""]
    else
      var rest := Split(s[1..], c);
      if s[0] == c then [""] + rest else [[s[0]] + rest[0]] + rest[1..]
  }

  lemma {:induction false} SplitWithout(p: string, c: char)
    requires c !in p
    ensures Split(p, c) == [p]
    decreases |p|
  {
    if |p| > 0 {
      SplitWithout(p[1..], c);
      assert [p[0]] + p[1..] == p;
    }
  }

  lemma {:induction false} SplitFirst(p: string, c: char, s: string)
    requires c !in p
    ensures Split(p + [c] + s, c) == [p] + Split(s, c)
    decreases |p|
  {
    var t := p + [c] + s;
    if |p| == 0 {
      assert t[0] == c && t[1..] == s;
    } else {
      assert t[0] == p[0] && t[1..] == p[1..] + [c] + s;
      SplitFirst(p[1..], c, s);
      assert [p[0]] + p[1..] == p;
    }
  }

  /**
   * Splitting on a one-character separator undoes `Join` when no part
   * contains that character: the parts come back, all of them, in order.
   */
  lemma {:induction false} SplitJoin(c: char, parts: seq<string>)
    requires |parts| >= 1
    requires forall i :: 0 <= i < |parts| ==> c !in parts[i]
    ensures Split(Join([c], parts), c) == parts
    decreases |parts|
  {
    if |parts| == 1 {
      SplitWithout(parts[0], c);
    } else {
      SplitJoin(c, parts[1..]);
      SplitFirst(parts[0], c, Join([c], parts[1..]));
      assert [parts[0]] + parts[1..] == parts;
    }
  }
}
