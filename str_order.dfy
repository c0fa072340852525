/**
 * Python's ordering of `str` values: lexicographic by code point, where a
 * proper prefix sorts before the longer string. `list.sort(key=...)` on
 * idea names compares with exactly this `<`.
 */
module StrOrder {

  /** Python's `a < b` on strings. */
  predicate Less(a: string, b: string)
    decreases |a|
  {
    if |a| == 0 then |b| > 0
    else if |b| == 0 then false
    else a[0] < b[0] || (a[0] == b[0] && Less(a[1..], b[1..]))
  }

  /** `a <= b` in Python's order. */
  predicate LessEq(a: string, b: string) {
    a == b || Less(a, b)
  }

  /**
   * The recursive definition agrees with the textbook one: `a` is a proper
   * prefix of `b`, or the two first differ at a position where `a` has the
   * smaller character.
   */
  lemma {:induction false} LessMeansPrefixOrFirstDifference(a: string, b: string)
    ensures Less(a, b) <==>
      (|a| < |b| && a == b[..|a|]) ||
      (exists k :: 0 <= k < |a| && k < |b| && a[..k] == b[..k] && a[k] < b[k])
  {
    if |a| == 0 || |b| == 0 {
    } else if a[0] < b[0] {
      assert a[..0] == b[..0];
    } else if a[0] == b[0] {
      LessMeansPrefixOrFirstDifference(a[1..], b[1..]);
      if |a| < |b| && a == b[..|a|] {
        assert a[1..] == b[..|a|][1..] == b[1..][..|a[1..]|];
      }
      if |a[1..]| < |b[1..]| && a[1..] == b[1..][..|a[1..]|] {
        assert a == [a[0]] + a[1..];
        assert b[..|a|] == [b[0]] + b[1..][..|a[1..]|];
      }
      if k :| 0 <= k < |a| && k < |b| && a[..k] == b[..k] && a[k] < b[k] {
        assert k > 0;
        assert a[1..][..k-1] == a[..k][1..];
        assert b[1..][..k-1] == b[..k][1..];
        assert a[1..][k-1] == a[k];
      }
      if k :| 0 <= k < |a[1..]| && k < |b[1..]| && a[1..][..k] == b[1..][..k] && a[1..][k] < b[1..][k] {
        assert a[..k+1] == [a[0]] + a[1..][..k];
        assert b[..k+1] == [b[0]] + b[1..][..k];
      }
    } else {
      forall k | 0 < k <= |a| && k <= |b| ensures a[..k] != b[..k] {
        assert a[..k][0] != b[..k][0];
      }
    }
  }

  lemma {:induction false} LessIrreflexive(a: string)
    ensures !Less(a, a)
  {
    if |a| > 0 {
      LessIrreflexive(a[1..]);
    }
  }

  lemma {:induction false} LessTransitive(a: string, b: string, c: string)
    requires Less(a, b) && Less(b, c)
    ensures Less(a, c)
  {
    if |a| > 0 && |b| > 0 && |c| > 0 && a[0] == b[0] == c[0] {
      LessTransitive(a[1..], b[1..], c[1..]);
    }
  }

  /** Any two strings are comparable: Python's `<` on `str` is a strict total order. */
  lemma {:induction false} LessTotal(a: string, b: string)
    ensures Less(a, b) || a == b || Less(b, a)
  {
    if |a| > 0 && |b| > 0 && a[0] == b[0] {
      LessTotal(a[1..], b[1..]);
      if a[1..] == b[1..] {
        assert a == [a[0]] + a[1..] && b == [b[0]] + b[1..];
      }
    }
  }

  lemma LessAsymmetric(a: string, b: string)
    requires Less(a, b)
    ensures !Less(b, a)
  {
    if Less(b, a) {
      LessTransitive(a, b, a);
      LessIrreflexive(a);
    }
  }

  /** `not (b < a)` is the same as `a <= b`. */
  lemma NotLessIsLessEq(a: string, b: string)
    ensures !Less(b, a) <==> LessEq(a, b)
  {
    LessTotal(a, b);
    if Less(a, b) {
      LessAsymmetric(a, b);
    }
    if a == b {
      LessIrreflexive(a);
    }
  }
}
