/**
 * String helpers the dialog logic relies on: replacing every occurrence of a
 * placeholder, and ASCII lower-casing.
 */
module Strings {

  /** `p` occurs in `s` starting at index `i`. */
  predicate MatchAt(s: string, i: nat, p: string) {
    i + |p| <= |s| && s[i..i + |p|] == p
  }

  /** `p` occurs somewhere in `s`. */
  predicate Occurs(p: string, s: string) {
    exists i: nat :: i < |s| && MatchAt(s, i, p)
  }

  /**
   * Replace every occurrence of `p` in `s` by `r`, scanning left to right; an
   * occurrence is never searched for inside text that was just put in.
   */
  function ReplaceAll(s: string, p: string, r: string): (out: string)
    requires p != []
    ensures |s| < |p| ==> out == s
    decreases |s|
  {
    if |s| < |p| then s
    else if s[..|p|] == p then r + ReplaceAll(s[|p|..], p, r)
    else [s[0]] + ReplaceAll(s[1..], p, r)
  }

  /** An occurrence in the tail is an occurrence one place further on in the whole. */
  lemma MatchInTail(s: string, i: nat, p: string)
    requires s != []
    ensures MatchAt(s[1..], i, p) ==> MatchAt(s, i + 1, p)
  {
    if i + |p| <= |s[1..]| {
      assert s[1..][i..i + |p|] == s[i + 1..i + 1 + |p|];
    }
  }

  /** What does not occur in a string does not occur in its tail. */
  lemma AbsentFromTail(s: string, p: string)
    requires s != [] && !Occurs(p, s)
    ensures !Occurs(p, s[1..])
  {
    forall i: nat | i < |s[1..]|
      ensures !MatchAt(s[1..], i, p)
    {
      MatchInTail(s, i, p);
    }
  }

  /** Where `p` does not occur at the front, the first character is kept and the scan moves on. */
  lemma ReplaceAllKeepsFirst(s: string, p: string, r: string)
    requires p != [] && s != [] && !MatchAt(s, 0, p)
    ensures ReplaceAll(s, p, r) == [s[0]] + ReplaceAll(s[1..], p, r)
  {
    if |s| < |p| {
      assert ReplaceAll(s[1..], p, r) == s[1..];
      assert [s[0]] + s[1..] == s;
    } else {
      assert s[0..|p|] == s[..|p|];
    }
  }

  /** An occurrence at the front is replaced. */
  lemma ReplaceAllAtFront(b: string, p: string, r: string)
    requires p != []
    ensures ReplaceAll(p + b, p, r) == r + ReplaceAll(b, p, r)
  {
    assert (p + b)[..|p|] == p;
    assert (p + b)[|p|..] == b;
  }

  /** Where `p` does not occur, nothing is replaced. */
  lemma {:induction false} ReplaceAllAbsent(s: string, p: string, r: string)
    requires p != [] && !Occurs(p, s)
    ensures ReplaceAll(s, p, r) == s
    decreases |s|
  {
    if s != [] {
      assert !MatchAt(s, 0, p);
      AbsentFromTail(s, p);
      ReplaceAllKeepsFirst(s, p, r);
      ReplaceAllAbsent(s[1..], p, r);
      assert [s[0]] + s[1..] == s;
    }
  }

  /** Text without the first letter of `p` passes through unchanged and stops nothing after it. */
  lemma {:induction false} ReplaceAllSkipsPlain(a: string, b: string, p: string, r: string)
    requires p != [] && p[0] !in a
    ensures ReplaceAll(a + b, p, r) == a + ReplaceAll(b, p, r)
    decreases |a|
  {
    if a != [] {
      var s := a + b;
      assert s[0] == a[0] != p[0];
      assert !MatchAt(s, 0, p);
      ReplaceAllKeepsFirst(s, p, r);
      assert s[1..] == a[1..] + b;
      ReplaceAllSkipsPlain(a[1..], b, p, r);
      assert [a[0]] + (a[1..] + ReplaceAll(b, p, r)) == a + ReplaceAll(b, p, r);
    } else {
      assert a + b == b;
    }
  }

  /**
   * Text in which `p` does not occur passes through unchanged when what follows
   * starts with a character foreign to `p` (so no occurrence can straddle the join).
   */
  lemma {:induction false} ReplaceAllSkipsAbsent(a: string, b: string, p: string, r: string)
    requires p != [] && !Occurs(p, a) && b != [] && b[0] !in p
    ensures ReplaceAll(a + b, p, r) == a + ReplaceAll(b, p, r)
    decreases |a|
  {
    if a != [] {
      var s := a + b;
      assert !MatchAt(s, 0, p) by {
        if |p| <= |a| {
          assert a[0..|p|] == s[0..|p|];
          assert !MatchAt(a, 0, p);
        } else if |p| <= |s| {
          assert s[0..|p|][|a|] == b[0] != p[|a|];
        }
      }
      AbsentFromTail(a, p);
      ReplaceAllKeepsFirst(s, p, r);
      assert s[1..] == a[1..] + b;
      ReplaceAllSkipsAbsent(a[1..], b, p, r);
      assert [a[0]] + (a[1..] + ReplaceAll(b, p, r)) == a + ReplaceAll(b, p, r);
    } else {
      assert a + b == b;
    }
  }

  /**
   * A placeholder `q` that differs from `p` at index `k` is kept, as long as
   * the first letter of `p` occurs in `q` only at its front.
   */
  lemma ReplaceAllSkipsOther(q: string, b: string, p: string, r: string, k: nat)
    requires p != [] && q != [] && p[0] !in q[1..]
    requires k < |p| && k < |q| && p[k] != q[k]
    ensures ReplaceAll(q + b, p, r) == q + ReplaceAll(b, p, r)
  {
    var s := q + b;
    assert !MatchAt(s, 0, p);
    ReplaceAllKeepsFirst(s, p, r);
    assert s[1..] == q[1..] + b;
    ReplaceAllSkipsPlain(q[1..], b, p, r);
    assert [q[0]] + (q[1..] + ReplaceAll(b, p, r)) == q + ReplaceAll(b, p, r);
  }

  /** Replacing a placeholder by itself changes nothing. */
  lemma {:induction false} ReplaceAllBySelf(s: string, p: string)
    requires p != []
    ensures ReplaceAll(s, p, p) == s
    decreases |s|
  {
    if |s| >= |p| {
      if s[..|p|] == p {
        ReplaceAllBySelf(s[|p|..], p);
        assert s[..|p|] + s[|p|..] == s;
      } else {
        ReplaceAllBySelf(s[1..], p);
        assert [s[0]] + s[1..] == s;
      }
    }
  }

  /** ASCII lower-casing of one character. */
  function LowerChar(c: char): char {
    if 'A' <= c <= 'Z' then (c as int + 32) as char else c
  }

  /** ASCII lower-casing of a string, character by character. */
  function ToLower(s: string): (r: string)
    ensures |r| == |s|
  {
    seq(|s|, i requires 0 <= i < |s| => LowerChar(s[i]))
  }

  /** A tag name lower-cases to "a" exactly when it is "a" or "A". */
  lemma LowerIsA(t: string)
    ensures ToLower(t) == "a" <==> t == "a" || t == "A"
  {
    if ToLower(t) == "a" {
      assert |t| == 1;
      assert ToLower(t)[0] == LowerChar(t[0]) == 'a';
      assert t == [t[0]];
    }
  }
}
