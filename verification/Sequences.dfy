/** Facts about sequences that several modules need. */
module Sequences {
  lemma Regrouped<T>(a: seq<T>, b: seq<T>, c: seq<T>)
    ensures a + (b + c) == (a + b) + c
  {
  }

  /** `a` can be had from `b` by leaving elements out. */
  ghost predicate Subsequence<T>(a: seq<T>, b: seq<T>) {
    a == [] ||
    (b != [] &&
     var b' := b[..|b| - 1];
     Subsequence(a, b') || (a[|a| - 1] == b[|b| - 1] && Subsequence(a[..|a| - 1], b')))
  }

  lemma SubsequenceOneMore<T>(a: seq<T>, b: seq<T>, x: T)
    requires Subsequence(a, b)
    ensures Subsequence(a, b + [x]) && Subsequence(a + [x], b + [x])
  {
    assert (a + [x])[..|a|] == a && (b + [x])[..|b|] == b;
  }

  lemma {:induction false} SubsequenceSuffix<T>(front: seq<T>, a: seq<T>, b: seq<T>)
    requires Subsequence(front + a, b)
    ensures Subsequence(a, b)
  {
    if a == [] {
    } else {
      var b' := b[..|b| - 1];
      assert (front + a)[..|front + a| - 1] == front + a[..|a| - 1];
      if Subsequence(front + a, b') {
        SubsequenceSuffix(front, a, b');
      } else {
        SubsequenceSuffix(front, a[..|a| - 1], b');
      }
    }
  }
}
