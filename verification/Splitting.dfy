/** Splitting a sequence at a separator, as str::split and slice::split do. */
module Splitting {
  /** The pieces between separators; there is always at least one. */
  function Split<T(==)>(s: seq<T>, sep: T): (ps: seq<seq<T>>)
    ensures |ps| >= 1
  {
    if s == [] then [[]]
    else if s[0] == sep then [[]] + Split(s[1..], sep)
    else
      var rest := Split(s[1..], sep);
      [[s[0]] + rest[0]] + rest[1..]
  }

  /** The first element joins the first piece, or ends an empty one. */
  function Grow<T(==)>(c: T, ps: seq<seq<T>>, sep: T): seq<seq<T>>
    requires |ps| >= 1
  {
    if c == sep then [[]] + ps else [[c] + ps[0]] + ps[1..]
  }

  lemma GrowAppend<T>(c: T, x: seq<seq<T>>, y: seq<seq<T>>, sep: T)
    requires |x| >= 1
    ensures Grow(c, x + y, sep) == Grow(c, x, sep) + y
  {
    assert (x + y)[1..] == x[1..] + y;
  }

  lemma SplitCons<T>(s: seq<T>, sep: T)
    requires s != []
    ensures Split(s, sep) == Grow(s[0], Split(s[1..], sep), sep)
  {
  }

  lemma {:induction false} SplitAtSeparator<T>(a: seq<T>, b: seq<T>, sep: T)
    ensures Split(a + [sep] + b, sep) == Split(a, sep) + Split(b, sep)
    decreases |a|
  {
    var s := a + [sep] + b;
    SplitCons(s, sep);
    if a == [] {
      assert s[1..] == b;
    } else {
      SplitAtSeparator(a[1..], b, sep);
      SplitCons(a, sep);
      hide *;
      assert s[0] == a[0] && s[1..] == a[1..] + [sep] + b;
      GrowAppend(a[0], Split(a[1..], sep), Split(b, sep), sep);
    }
  }

  /** Without a separator there is one piece. */
  lemma {:induction false} SplitOfPlain<T>(s: seq<T>, sep: T)
    requires sep !in s
    ensures Split(s, sep) == [s]
    decreases |s|
  {
    if s != [] {
      SplitOfPlain(s[1..], sep);
      assert [s[0]] + s[1..] == s;
    }
  }

  /** No piece contains the separator. */
  lemma {:induction false} PiecesArePlain<T>(s: seq<T>, sep: T)
    ensures forall i :: 0 <= i < |Split(s, sep)| ==> sep !in Split(s, sep)[i]
    decreases |s|
  {
    if s != [] { PiecesArePlain(s[1..], sep); }
  }
}
