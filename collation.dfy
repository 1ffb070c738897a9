/**
 * The order in which pandas sorts group keys: Python's string comparison, which is
 * lexicographic by code point, and tuples compared component by component.
 */
module Collation {

  /** Python's `a < b` on `str`: a proper prefix is always the smaller string. */
  predicate StrLess(a: string, b: string): (r: bool)
    ensures |a| < |b| && a == b[..|a|] ==> r
    decreases |a|
  {
    if |a| == 0 then |b| > 0
    else if |b| == 0 then false
    else a[0] < b[0] || (a[0] == b[0] && StrLess(a[1..], b[1..]))
  }

  lemma {:induction false} StrLessIrreflexive(a: string)
    ensures !StrLess(a, a)
    decreases |a|
  {
    if |a| > 0 {
      StrLessIrreflexive(a[1..]);
    }
  }

  lemma {:induction false} StrLessTransitive(a: string, b: string, c: string)
    requires StrLess(a, b) && StrLess(b, c)
    ensures StrLess(a, c)
    decreases |a|
  {
    if |a| > 0 && a[0] == b[0] && b[0] == c[0] {
      StrLessTransitive(a[1..], b[1..], c[1..]);
    }
  }

  /** Any two distinct strings are ordered one way or the other. */
  lemma {:induction false} StrLessTotal(a: string, b: string)
    ensures a == b || StrLess(a, b) || StrLess(b, a)
    decreases |a|
  {
    if |a| > 0 && |b| > 0 && a[0] == b[0] {
      StrLessTotal(a[1..], b[1..]);
      if a[1..] == b[1..] {
        assert a == [a[0]] + a[1..] && b == [b[0]] + b[1..];
      }
    }
  }

  /** A group key of `groupby(['sector', 'output'])`. */
  type Key = (string, string)

  /** Tuple comparison: by sector, then by output; no key is below itself. */
  predicate KeyLess(k: Key, l: Key): (r: bool)
    ensures r ==> k != l
  {
    StrLessIrreflexive(k.0);
    StrLessIrreflexive(k.1);
    StrLess(k.0, l.0) || (k.0 == l.0 && StrLess(k.1, l.1))
  }

  lemma KeyLessIrreflexive(k: Key)
    ensures !KeyLess(k, k)
  {
    StrLessIrreflexive(k.0);
    StrLessIrreflexive(k.1);
  }

  lemma KeyLessTransitive(k: Key, l: Key, m: Key)
    requires KeyLess(k, l) && KeyLess(l, m)
    ensures KeyLess(k, m)
  {
    if StrLess(k.0, l.0) && StrLess(l.0, m.0) {
      StrLessTransitive(k.0, l.0, m.0);
    } else if k.0 == l.0 && l.0 == m.0 {
      StrLessTransitive(k.1, l.1, m.1);
    }
  }

  lemma KeyLessTotal(k: Key, l: Key)
    ensures k == l || KeyLess(k, l) || KeyLess(l, k)
  {
    StrLessTotal(k.0, l.0);
    StrLessTotal(k.1, l.1);
  }

  /** Strictly increasing, so in particular free of duplicates. */
  predicate StrictlySorted(ks: seq<Key>) {
    forall i, j :: 0 <= i < j < |ks| ==> KeyLess(ks[i], ks[j])
  }

  /** The head of a strictly sorted sequence is its least element. */
  lemma HeadIsLeast(s: seq<Key>, k: Key)
    requires StrictlySorted(s) && k in s
    ensures s[0] == k || KeyLess(s[0], k)
  {
  }

  /** Two strictly sorted sequences that hold the same keys are the same sequence. */
  lemma {:induction false} StrictlySortedUnique(a: seq<Key>, b: seq<Key>)
    requires StrictlySorted(a) && StrictlySorted(b)
    requires forall k :: k in a <==> k in b
    ensures a == b
  {
    assert a != [] ==> a[0] in b;
    assert b != [] ==> b[0] in a;
    if a != [] {
      assert a[0] == b[0] by {
        HeadIsLeast(a, b[0]);
        HeadIsLeast(b, a[0]);
        if a[0] != b[0] {
          KeyLessTransitive(a[0], b[0], a[0]);
          KeyLessIrreflexive(a[0]);
        }
      }
      forall k
        ensures k in a[1..] <==> k in b[1..]
      {
        if k in a[1..] {
          var i :| 0 <= i < |a| - 1 && a[1..][i] == k;
          KeyLessIrreflexive(k);
          assert k in b;
          var j :| 0 <= j < |b| && b[j] == k;
          assert b[1..][j - 1] == k;
        }
        if k in b[1..] {
          var j :| 0 <= j < |b| - 1 && b[1..][j] == k;
          KeyLessIrreflexive(k);
          assert k in a;
          var i :| 0 <= i < |a| && a[i] == k;
          assert a[1..][i - 1] == k;
        }
      }
      StrictlySortedUnique(a[1..], b[1..]);
      assert a == [a[0]] + a[1..] && b == [b[0]] + b[1..];
    }
  }
}
