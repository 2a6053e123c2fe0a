/** Sizes of finite sets. */
module Counting {
  /** Distinct values between 1 and n can be given to at most n elements. */
  lemma {:induction false} InjectionBound<T>(xs: set<T>, f: map<T, int>, n: nat)
    requires forall x :: x in xs ==> x in f && 1 <= f[x] <= n
    requires forall x, y :: x in xs && y in xs && x != y ==> f[x] != f[y]
    ensures |xs| <= n
  {
    if xs != {} {
      var y :| y in xs;
      assert f[y] <= n;
      if x :| x in xs && f[x] == n {
        InjectionBound(xs - {x}, f, n - 1);
      } else {
        InjectionBound(xs, f, n - 1);
      }
    }
  }

  lemma SubsetSize<T>(a: set<T>, b: set<T>)
    requires a <= b
    ensures |a| <= |b|
  {
    assert b == a + (b - a);
  }

  /** An injection into a finite set. */
  lemma {:induction false} InjectionSize<S, T>(xs: set<S>, ys: set<T>, f: map<S, T>)
    requires forall x :: x in xs ==> x in f && f[x] in ys
    requires forall x, y :: x in xs && y in xs && x != y ==> f[x] != f[y]
    ensures |xs| <= |ys|
  {
    if xs != {} {
      var x :| x in xs;
      InjectionSize(xs - {x}, ys - {f[x]}, f);
    }
  }

  lemma SplitSize<T>(a: set<T>, b: set<T>)
    ensures |a| <= |b| + |a - b|
  {
    assert a == (a * b) + (a - b);
    SubsetSize(a * b, b);
  }
}
