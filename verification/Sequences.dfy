/** Subsequences: same order, some elements missing. */
module Sequences {
  predicate Subsequence<T(==)>(a: seq<T>, b: seq<T>)
    decreases |b|
  {
    if a == [] then true
    else if b == [] then false
    else (a[|a| - 1] == b[|b| - 1] && Subsequence(a[..|a| - 1], b[..|b| - 1])) || Subsequence(a, b[..|b| - 1])
  }

  lemma {:induction false} WithoutLast<T>(a: seq<T>, b: seq<T>)
    requires a != [] && Subsequence(a, b)
    ensures Subsequence(a[..|a| - 1], b)
    decreases |b|
  {
    var front := b[..|b| - 1];
    if a[|a| - 1] == b[|b| - 1] && Subsequence(a[..|a| - 1], front) {
      Longer(a[..|a| - 1], front, b[|b| - 1]);
      assert front + [b[|b| - 1]] == b;
    } else {
      WithoutLast(a, front);
      Longer(a[..|a| - 1], front, b[|b| - 1]);
      assert front + [b[|b| - 1]] == b;
    }
  }

  lemma Longer<T>(a: seq<T>, b: seq<T>, x: T)
    requires Subsequence(a, b)
    ensures Subsequence(a, b + [x])
  {
  }

  lemma BothLonger<T>(a: seq<T>, b: seq<T>, x: T)
    requires Subsequence(a, b)
    ensures Subsequence(a + [x], b + [x])
  {
  }

  lemma {:induction false} Itself<T>(a: seq<T>)
    ensures Subsequence(a, a)
    decreases |a|
  {
    if a != [] {
      Itself(a[..|a| - 1]);
    }
  }

  /** Removing any suffix of the shorter side keeps it a subsequence. */
  lemma {:induction false} WithoutSuffix<T>(a: seq<T>, rest: seq<T>, b: seq<T>)
    requires Subsequence(a + rest, b)
    ensures Subsequence(a, b)
    decreases |rest|
  {
    if rest == [] {
      assert a + rest == a;
    } else {
      WithoutLast(a + rest, b);
      assert (a + rest)[..|a + rest| - 1] == a + rest[..|rest| - 1];
      WithoutSuffix(a, rest[..|rest| - 1], b);
    }
  }

  lemma {:induction false} SubsequenceMembers<T>(a: seq<T>, b: seq<T>, i: nat)
    requires Subsequence(a, b) && i < |a|
    ensures exists j :: 0 <= j < |b| && b[j] == a[i]
    decreases |b|
  {
    var front := b[..|b| - 1];
    if a[|a| - 1] == b[|b| - 1] && Subsequence(a[..|a| - 1], front) && i < |a| - 1 {
      SubsequenceMembers(a[..|a| - 1], front, i);
      var j :| 0 <= j < |front| && front[j] == a[..|a| - 1][i];
      assert b[j] == a[i];
    } else if a[|a| - 1] == b[|b| - 1] && i == |a| - 1 {
      assert b[|b| - 1] == a[i];
    } else {
      SubsequenceMembers(a, front, i);
      var j :| 0 <= j < |front| && front[j] == a[i];
      assert b[j] == a[i];
    }
  }
}
