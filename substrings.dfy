/** Substring search over strings, as JavaScript's `String.prototype.includes`. */
module Substrings {

  /** `t` occurs in `s` starting at position `i`. */
  predicate OccursAt(s: string, t: string, i: int)
  {
    0 <= i && i + |t| <= |s| && s[i..i + |t|] == t
  }

  /** `s.includes(t)`: some window of `s` equals `t`. */
  function Includes(s: string, t: string): (b: bool)
    ensures b <==> exists i :: OccursAt(s, t, i)
  {
    exists i | 0 <= i <= |s| - |t| :: OccursAt(s, t, i)
  }

  /** Every string includes itself. */
  lemma {:induction false} IncludesItself(s: string)
    ensures Includes(s, s)
  {
    assert OccursAt(s, s, 0);
  }

  /** A string cannot include a word that has a character it lacks. */
  lemma {:induction false} MissingCharExcludes(s: string, t: string, c: char)
    requires c in t && c !in s
    ensures !Includes(s, t)
  {
  }

  predicate IsLower(c: char)
  {
    'a' <= c <= 'z'
  }

  /** A word of lower-case ASCII letters. */
  ghost predicate AllLower(t: string)
  {
    forall k :: 0 <= k < |t| ==> IsLower(t[k])
  }

  /** A string without lower-case ASCII letters. */
  ghost predicate NoLower(n: string)
  {
    forall k :: 0 <= k < |n| ==> !IsLower(n[k])
  }

  /** An occurrence in `x` is one in `x + z`. */
  lemma {:induction false} OccursInPrefix(x: string, z: string, t: string, i: int)
    requires OccursAt(x, t, i)
    ensures OccursAt(x + z, t, i)
  {
    assert (x + z)[i..i + |t|] == x[i..i + |t|];
  }

  /** An occurrence in `y` is one in `z + y`, shifted by `|z|`. */
  lemma {:induction false} OccursInSuffix(z: string, y: string, t: string, i: int)
    requires OccursAt(y, t, i)
    ensures OccursAt(z + y, t, |z| + i)
  {
    assert (z + y)[|z| + i..|z| + i + |t|] == y[i..i + |t|];
  }

  /** An occurrence of a lower-case word in `x + n + y` lies within `x` or within `y`. */
  lemma {:induction false} OccurrenceAvoidsSeparator(x: string, n: string, y: string, t: string, i: int)
    requires |t| > 0 && AllLower(t)
    requires |n| > 0 && NoLower(n)
    requires OccursAt(x + n + y, t, i)
    ensures OccursAt(x, t, i) || OccursAt(y, t, i - |x| - |n|)
  {
    var w := x + n + y;
    assert forall k :: i <= k < i + |t| ==> w[k] == w[i..i + |t|][k - i] == t[k - i];
    // the window starts on a letter and cannot cover the separator's first character
    assert IsLower(w[i]) && !IsLower(w[|x|]);
    if i < |x| {
      assert i + |t| <= |x|;
      assert w[i..i + |t|] == x[i..i + |t|];
    } else {
      assert i >= |x| + |n|;
      var j := i - |x| - |n|;
      assert w[i..i + |t|] == y[j..j + |t|];
    }
  }

  /**
   * A lower-case word occurs in `x + n + y`, where the separator `n` is not
   * empty and has no lower-case letter, exactly when it occurs in `x` or in `y`.
   */
  lemma {:induction false} IncludesAcrossSeparator(x: string, n: string, y: string, t: string)
    requires |t| > 0 && AllLower(t)
    requires |n| > 0 && NoLower(n)
    ensures Includes(x + n + y, t) <==> Includes(x, t) || Includes(y, t)
  {
    if Includes(x, t) {
      var i :| OccursAt(x, t, i);
      OccursInPrefix(x, n + y, t, i);
      assert x + (n + y) == x + n + y;
    }
    if Includes(y, t) {
      var i :| OccursAt(y, t, i);
      OccursInSuffix(x + n, y, t, i);
    }
    if Includes(x + n + y, t) {
      var i :| OccursAt(x + n + y, t, i);
      OccurrenceAvoidsSeparator(x, n, y, t, i);
    }
  }
}
