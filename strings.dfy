/**
 * Text helpers used by the tracker: the order in which dictionary keys are
 * visited, Python's substring test and negative-stop slice, and splitting and
 * joining on the path separator '.'.
 */
module Strings {

  /** The path separator (tracker.py:10). */
  const Sep: char := '.'

  // ---------------------------------------------------------------------------
  // A fixed visiting order for the keys of a dictionary
  // ---------------------------------------------------------------------------

  /** Lexicographic order on strings (`a` sorts no later than `b`). */
  predicate Below(a: string, b: string)
    decreases |a|
  {
    if a == [] then true
    else if b == [] then false
    else if a[0] != b[0] then a[0] < b[0]
    else Below(a[1..], b[1..])
  }

  lemma {:induction false} BelowAntisymmetric(a: string, b: string)
    requires Below(a, b) && Below(b, a)
    ensures a == b
    decreases |a|
  {
    if a != [] && b != [] && a[0] == b[0] {
      BelowAntisymmetric(a[1..], b[1..]);
    }
  }

  lemma {:induction false} BelowTotal(a: string, b: string)
    ensures Below(a, b) || Below(b, a)
    decreases |a|
  {
    if a != [] && b != [] && a[0] == b[0] {
      BelowTotal(a[1..], b[1..]);
    }
  }

  lemma {:induction false} BelowTransitive(a: string, b: string, c: string)
    requires Below(a, b) && Below(b, c)
    ensures Below(a, c)
    decreases |a|
  {
    if a != [] && b != [] && c != [] && a[0] == b[0] && b[0] == c[0] {
      BelowTransitive(a[1..], b[1..], c[1..]);
    }
  }

  /** Every finite non-empty set of strings has a lexicographically least element. */
  lemma {:induction false} LeastExists(s: set<string>)
    requires s != {}
    ensures exists x :: x in s && forall y :: y in s ==> Below(x, y)
    decreases |s|
  {
    var y :| y in s;
    if s == {y} {
      BelowTotal(y, y);
      assert forall z :: z in s ==> z == y;
    } else {
      LeastExists(s - {y});
      var x :| x in s - {y} && forall z :: z in s - {y} ==> Below(x, z);
      BelowTotal(x, y);
      if Below(x, y) {
        assert forall z :: z in s ==> Below(x, z);
      } else {
        forall z | z in s
          ensures Below(y, z)
        {
          if z == y {
            BelowTotal(y, y);
          } else {
            BelowTransitive(y, x, z);
          }
        }
      }
    }
  }

  lemma AllBelowAntisymmetric()
    ensures forall a, b :: Below(a, b) && Below(b, a) ==> a == b
  {
    forall a, b | Below(a, b) && Below(b, a)
      ensures a == b
    {
      BelowAntisymmetric(a, b);
    }
  }

  /**
   * The key a dictionary loop visits first. Python visits keys in insertion
   * order, which the decoded values do not carry; the model visits them in
   * ascending order instead.
   */
  function Least(s: set<string>): (x: string)
    requires s != {}
    ensures x in s
    ensures forall y :: y in s ==> Below(x, y)
  {
    LeastExists(s);
    AllBelowAntisymmetric();
    var x :| x in s && forall y :: y in s ==> Below(x, y);
    x
  }

  // ---------------------------------------------------------------------------
  // Python's `m in s` on strings and `s[:-n]`
  // ---------------------------------------------------------------------------

  /** Python's `m in s` for strings: `m` occurs in `s` as a contiguous substring. */
  predicate Contains(s: string, m: string)
  {
    exists i :: 0 <= i <= |s| - |m| && OccursAt(s, m, i)
  }

  /** `m` occurs in `s` starting at index `i`. */
  predicate OccursAt(s: string, m: string, i: int)
  {
    0 <= i <= |s| - |m| && s[i..i + |m|] == m
  }

  /** `m` cannot occur in `s` when one of its characters is missing from `s`. */
  lemma MissingChar(s: string, m: string, j: int)
    requires 0 <= j < |m| && m[j] !in s
    ensures !Contains(s, m)
  {
    forall i | 0 <= i <= |s| - |m| ensures !OccursAt(s, m, i) {
      assert s[i..i + |m|][j] == s[i + j];
    }
  }

  /** Python's `s[:-n]`: `s` without its last `n` characters, and "" once `n` reaches `|s|` (or `n` is 0). */
  function DropLast(s: string, n: nat): (r: string)
    ensures n == 0 || n >= |s| ==> r == ""
    ensures 0 < n <= |s| ==> |r| == |s| - n && r == s[..|s| - n]
  {
    if n == 0 || n > |s| then "" else s[..|s| - n]
  }

  /** `p + "." + m`: the path `p` extended by the marker segment `m`. */
  function Marked(p: string, m: string): (r: string)
    ensures Contains(r, m)
    ensures DropLast(r, |m| + 1) == p
  {
    var r := p + [Sep] + m;
    assert OccursAt(r, m, |p| + 1);
    assert r[..|r| - (|m| + 1)] == p;
    r
  }

  // ---------------------------------------------------------------------------
  // str.split('.') and '.'.join(...)
  // ---------------------------------------------------------------------------

  /** Index of the first separator in `s`. */
  function FirstSep(s: string): (i: nat)
    requires Sep in s
    ensures i < |s| && s[i] == Sep
    ensures forall j :: 0 <= j < i ==> s[j] != Sep
  {
    if s[0] == Sep then 0 else 1 + FirstSep(s[1..])
  }

  /** `'.'.join(p)`. */
  function JoinPath(p: seq<string>): string
    requires |p| >= 1
  {
    if |p| == 1 then p[0] else p[0] + [Sep] + JoinPath(p[1..])
  }

  /** Every segment of `p` is free of the separator. */
  predicate Dotless(p: seq<string>)
  {
    forall i :: 0 <= i < |p| ==> Sep !in p[i]
  }

  /**
   * Python's `s.split('.')`: the pieces between separators, at least one, none
   * containing a separator, and joined back they give `s`.
   */
  function Split(s: string): (p: seq<string>)
    ensures |p| >= 1
    ensures Dotless(p)
    ensures JoinPath(p) == s
    ensures Sep !in s <==> p == [s]
    decreases |s|
  {
    if Sep !in s then [s]
    else
      var i := FirstSep(s);
      var rest := Split(s[i + 1..]);
      assert s == s[..i] + [Sep] + s[i + 1..];
      assert Sep !in s[..i];
      [s[..i]] + rest
  }

  /** Splitting the join of separator-free segments gives the segments back. */
  lemma {:induction false} SplitJoinPath(p: seq<string>)
    requires |p| >= 1 && Dotless(p)
    ensures Split(JoinPath(p)) == p
    decreases |p|
  {
    if |p| > 1 {
      var s := JoinPath(p);
      var h := p[0];
      assert Dotless(p[1..]) by {
        forall i | 0 <= i < |p[1..]| ensures Sep !in p[1..][i] { assert p[1..][i] == p[i + 1]; }
      }
      SplitJoinPath(p[1..]);
      assert s == h + [Sep] + JoinPath(p[1..]);
      assert s[|h|] == Sep;
      assert Sep in s;
      assert forall j :: 0 <= j < |h| ==> s[j] == h[j];
      var i := FirstSep(s);
      assert i == |h|;
      assert s[..i] == h;
      assert s[i + 1..] == JoinPath(p[1..]);
    }
  }

  /** `''.join(name.split('.')[0])` (tracker.py:23): the file name up to its first '.'. */
  function FileStem(name: string): (stem: string)
    ensures Sep !in stem
    ensures |stem| <= |name| && stem == name[..|stem|]
    ensures stem == name || name[|stem|] == Sep
  {
    var p := Split(name);
    SplitHead(name);
    p[0]
  }

  lemma {:induction false} SplitHead(s: string)
    ensures |Split(s)[0]| <= |s| && Split(s)[0] == s[..|Split(s)[0]|]
    ensures Split(s)[0] == s || s[|Split(s)[0]|] == Sep
  {
    if Sep in s {
      var i := FirstSep(s);
      assert Split(s)[0] == s[..i];
    }
  }
}
