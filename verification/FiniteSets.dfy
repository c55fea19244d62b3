/** Sizes and subsets of finite sets. */
module FiniteSets {
  lemma {:induction false} SubsetSize<T>(a: set<T>, b: set<T>)
    requires a <= b
    ensures |a| <= |b|
    ensures |b - a| == |b| - |a|
  {
    assert b == a + (b - a);
  }

  lemma UnionSize<T>(a: set<T>, b: set<T>)
    ensures |a + b| + |a * b| == |a| + |b|
  {
  }

  /** A set has subsets of every size up to its own. */
  lemma {:induction false} SubsetOf<T>(s: set<T>, size: nat) returns (part: set<T>)
    requires size <= |s|
    ensures part <= s && |part| == size
  {
    if size == |s| {
      part := s;
    } else {
      var x :| x in s;
      part := SubsetOf(s - {x}, size);
    }
  }

  /** One that holds a given element, too. */
  lemma SubsetWith<T>(s: set<T>, x: T, size: nat) returns (part: set<T>)
    requires x in s && 0 < size <= |s|
    ensures part <= s && |part| == size && x in part
  {
    var rest := SubsetOf(s - {x}, size - 1);
    part := rest + {x};
  }

  /** Two subsets that are too large to lie side by side meet in the excess. */
  lemma Excess<T>(a: set<T>, b: set<T>, all: set<T>)
    requires a <= all && b <= all
    ensures |a * b| >= |a| + |b| - |all|
  {
    UnionSize(a, b);
    SubsetSize(a + b, all);
  }
}
