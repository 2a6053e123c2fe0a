/**
 Property paths of the proxy-wasm host: segments separated by NUL bytes, with an optional NUL at the end.
 User properties are stored under the canonical form of their path.
 */
module PropertyPath {
  import opened Octets
  import opened Splitting

  /** Drop one trailing NUL. */
  function Trimmed(b: Bytes): Bytes {
    if b != [] && b[|b| - 1] == 0 then b[..|b| - 1] else b
  }

  function DecodePropertyPath(b: Bytes): seq<Bytes> {
    if Trimmed(b) == [] then [] else Split(Trimmed(b), 0)
  }

  function Join(segs: seq<Bytes>): Bytes {
    if segs == [] then []
    else if |segs| == 1 then segs[0]
    else Join(segs[..|segs| - 1]) + [0] + segs[|segs| - 1]
  }

  method CanonicalizePath(segs: seq<Bytes>) returns (out: Bytes)
    ensures out == Join(segs)
  {
    out := [];
    for i := 0 to |segs|
      invariant out == Join(segs[..i])
    {
      if i > 0 {
        out := out + [0];
      }
      out := out + segs[i];
      assert segs[..i + 1][..i] == segs[..i];
    }
    assert segs[..|segs|] == segs;
  }

  // ---------------------------------------------------------------- splitting and joining

  lemma {:induction false} JoinFront(segs: seq<Bytes>)
    requires |segs| >= 2
    ensures Join(segs) == segs[0] + [0] + Join(segs[1..])
    decreases |segs|
  {
    var n := |segs| - 1;
    if n > 1 {
      JoinFront(segs[..n]);
      assert segs[..n][1..] == segs[1..][..n - 1];
    } else {
      assert segs[..1] == [segs[0]] && segs[1..] == [segs[1]];
    }
  }

  lemma JoinGlue(x: Byte, segs: seq<Bytes>)
    requires segs != []
    ensures Join([[x] + segs[0]] + segs[1..]) == [x] + Join(segs)
  {
    var glued := [[x] + segs[0]] + segs[1..];
    if |segs| == 1 {
      assert glued == [[x] + segs[0]];
    } else {
      JoinFront(segs);
      JoinFront(glued);
      hide Join;
      assert glued[1..] == segs[1..] && glued[0] == [x] + segs[0];
      Associates([x], segs[0], [0], Join(segs[1..]));
    }
  }

  lemma Associates(a: Bytes, b: Bytes, c: Bytes, d: Bytes)
    ensures a + b + c + d == a + (b + c + d)
  {
  }

  /** Splitting loses nothing. */
  lemma {:induction false} JoinOfSplit(b: Bytes)
    ensures Join(Split(b, 0)) == b
    decreases |b|
  {
    if b != [] {
      JoinOfSplit(b[1..]);
      if b[0] == 0 {
        JoinFront([[]] + Split(b[1..], 0));
      } else {
        JoinGlue(b[0], Split(b[1..], 0));
      }
    }
  }

  lemma {:induction false} SplitOfJoin(segs: seq<Bytes>)
    requires segs != [] && forall i :: 0 <= i < |segs| ==> 0 !in segs[i]
    ensures Split(Join(segs), 0) == segs
    decreases |segs|
  {
    SplitOfPlain(segs[0], 0);
    if |segs| > 1 {
      JoinFront(segs);
      SplitAtSeparator(segs[0], Join(segs[1..]), 0);
      SplitOfJoin(segs[1..]);
    }
  }

  // ---------------------------------------------------------------- property names

  /** The canonical form of a decoded path is the path without its optional final NUL. */
  lemma CanonicalForm(b: Bytes)
    ensures Join(DecodePropertyPath(b)) == Trimmed(b)
  {
    JoinOfSplit(Trimmed(b));
  }

  /** Two byte strings name the same property exactly when they differ at most in one final NUL. */
  lemma SamePropertyIff(a: Bytes, b: Bytes)
    ensures DecodePropertyPath(a) == DecodePropertyPath(b) <==> Trimmed(a) == Trimmed(b)
  {
    CanonicalForm(a);
    CanonicalForm(b);
  }

  /** A list of segments survives being written and read exactly when it is empty or its last segment is not. */
  lemma SegmentsSurviveIff(segs: seq<Bytes>)
    requires forall i :: 0 <= i < |segs| ==> 0 !in segs[i]
    ensures DecodePropertyPath(Join(segs)) == segs <==> segs == [] || segs[|segs| - 1] != []
  {
    if segs != [] {
      var last := segs[|segs| - 1];
      var b := Join(segs);
      SplitOfJoin(segs);
      if last != [] {
        assert b[|b| - 1] == last[|last| - 1];
      } else {
        assert |segs| > 1 ==> b[|b| - 1] == 0;
        CanonicalForm(b);
        if Trimmed(b) != [] { assert Join(DecodePropertyPath(b)) != b; }
      }
    }
  }
}
