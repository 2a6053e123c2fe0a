/** Rewriting a request path by replacing a matched prefix, segment by segment. */
module PathRewrite {
  import opened Options
  import opened Splitting

  // ---------------------------------------------------------------- segments

  function NonEmpty(ps: seq<string>): seq<string> {
    if ps == [] then [] else Kept(ps[0]) + NonEmpty(ps[1..])
  }

  /** The non-empty segments of a path. */
  function Segments(s: string): seq<string> {
    NonEmpty(Split(s, '/'))
  }

  lemma {:induction false} NonEmptyConcat(a: seq<string>, b: seq<string>)
    ensures NonEmpty(a + b) == NonEmpty(a) + NonEmpty(b)
    decreases |a|
  {
    if a == [] {
      assert a + b == b;
    } else {
      NonEmptyConcat(a[1..], b);
      NonEmptyCons(a);
      NonEmptyCons(a + b);
      hide NonEmpty;
      assert (a + b)[0] == a[0] && (a + b)[1..] == a[1..] + b;
      Associates(Kept(a[0]), NonEmpty(a[1..]), NonEmpty(b));
    }
  }

  /** A piece, unless it is empty. */
  function Kept(p: string): seq<string> {
    if p == "" then [] else [p]
  }

  lemma NonEmptyCons(ps: seq<string>)
    requires ps != []
    ensures NonEmpty(ps) == Kept(ps[0]) + NonEmpty(ps[1..])
  {
  }

  lemma Associates(a: seq<string>, b: seq<string>, c: seq<string>)
    ensures a + b + c == a + (b + c)
  {
  }

  /** A slash between two paths separates their segments. */
  lemma SegmentsAtSlash(a: string, b: string)
    ensures Segments(a + "/" + b) == Segments(a) + Segments(b)
  {
    SplitAtSeparator(a, b, '/');
    NonEmptyConcat(Split(a, '/'), Split(b, '/'));
  }

  ghost predicate Segment(s: string) {
    s != "" && '/' !in s
  }

  lemma SegmentsOfSegment(s: string)
    requires Segment(s)
    ensures Segments(s) == [s]
  {
    SplitOfPlain(s, '/');
    assert NonEmpty([s][1..]) == [];
  }

  lemma EmptyHasNoSegments()
    ensures Segments("") == []
  {
    assert Split("", '/') == [""];
    assert NonEmpty([""]) == NonEmpty([""][1..]);
  }

  lemma {:induction false} NonEmptyKeeps(ps: seq<string>)
    requires forall i :: 0 <= i < |ps| ==> '/' !in ps[i]
    ensures forall i :: 0 <= i < |NonEmpty(ps)| ==> Segment(NonEmpty(ps)[i])
    decreases |ps|
  {
    if ps != [] { NonEmptyKeeps(ps[1..]); }
  }

  lemma SegmentsAreSegments(s: string)
    ensures forall i :: 0 <= i < |Segments(s)| ==> Segment(Segments(s)[i])
  {
    PiecesArePlain(s, '/');
    NonEmptyKeeps(Split(s, '/'));
  }

  // ---------------------------------------------------------------- trimming

  /** str::trim_start_matches('/') and trim_matches('/'). */
  function TrimStart(s: string): string {
    if s != "" && s[0] == '/' then TrimStart(s[1..]) else s
  }

  function TrimEnd(s: string): string {
    if s != "" && s[|s| - 1] == '/' then TrimEnd(s[..|s| - 1]) else s
  }

  function Trim(s: string): string {
    TrimEnd(TrimStart(s))
  }

  lemma {:induction false} TrimStartKeeps(s: string)
    ensures Segments(TrimStart(s)) == Segments(s)
  {
    if s != "" && s[0] == '/' {
      TrimStartKeeps(s[1..]);
      SegmentsAtSlash("", s[1..]);
      EmptyHasNoSegments();
      assert s == "" + "/" + s[1..];
    }
  }

  lemma {:induction false} TrimEndKeeps(s: string)
    ensures Segments(TrimEnd(s)) == Segments(s)
    decreases |s|
  {
    if s != "" && s[|s| - 1] == '/' {
      var n := |s| - 1;
      TrimEndKeeps(s[..n]);
      SegmentsAtSlash(s[..n], "");
      EmptyHasNoSegments();
      assert s == s[..n] + "/" + "";
    }
  }

  lemma TrimKeeps(s: string)
    ensures Segments(Trim(s)) == Segments(s)
  {
    TrimStartKeeps(s);
    TrimEndKeeps(TrimStart(s));
  }

  // ---------------------------------------------------------------- case

  function Lower(c: char): char {
    if 'A' <= c <= 'Z' then (c as int + 32) as char else c
  }

  /** str::eq_ignore_ascii_case. */
  predicate SameIgnoringCase(a: string, b: string) {
    |a| == |b| && forall i :: 0 <= i < |a| ==> Lower(a[i]) == Lower(b[i])
  }

  /** Segment lists equal up to ASCII case. */
  ghost predicate SameSegments(a: seq<string>, b: seq<string>) {
    |a| == |b| && forall i :: 0 <= i < |a| ==> SameIgnoringCase(a[i], b[i])
  }

  /** The segments of `prefix` begin those of `path`, up to ASCII case. */
  ghost predicate Matches(path: seq<string>, prefix: seq<string>) {
    |prefix| <= |path| && SameSegments(path[..|prefix|], prefix)
  }

  // ---------------------------------------------------------------- replacement

  predicate EndsWithSlash(s: string) {
    s != "" && s[|s| - 1] == '/'
  }

  /** No two slashes in a row: no empty segment in between. */
  ghost predicate Single(s: string) {
    forall i :: 0 <= i < |s| - 1 ==> s[i] != '/' || s[i + 1] != '/'
  }

  lemma SingleTogether(a: string, b: string)
    ensures Single(a + b) <==> Single(a) && Single(b) && !(EndsWithSlash(a) && b != "" && b[0] == '/')
  {
    var u := a + b;
    assert forall i :: 0 <= i < |a| ==> u[i] == a[i];
    assert forall i :: 0 <= i < |b| ==> u[|a| + i] == b[i];
    if Single(u) {
      forall i | 0 <= i < |b| - 1 ensures b[i] != '/' || b[i + 1] != '/' {
        assert u[|a| + i] != '/' || u[|a| + i + 1] != '/';
      }
      if a != "" && b != "" { assert u[|a| - 1] != '/' || u[|a| - 1 + 1] != '/'; }
    }
  }

  lemma SingleThenSlash(a: string)
    requires !EndsWithSlash(a)
    ensures Single(a + "/") <==> Single(a)
  {
    SingleTogether(a, "/");
  }

  /** A slash and a segment after a path that does not end with one. */
  lemma SingleThen(a: string, s: string)
    requires !EndsWithSlash(a) && Segment(s)
    ensures Single(a + "/" + s) <==> Single(a)
  {
    SingleThenSlash(a);
    SingleTogether(a + "/", s);
  }

  lemma {:induction false} TrimStartStarts(s: string)
    ensures TrimStart(s) != "" ==> TrimStart(s)[0] != '/'
  {
    if s != "" && s[0] == '/' { TrimStartStarts(s[1..]); }
  }

  lemma {:induction false} TrimEndEnds(s: string)
    requires s != "" ==> s[0] != '/'
    ensures !EndsWithSlash(TrimEnd(s)) && (TrimEnd(s) != "" ==> TrimEnd(s)[0] != '/')
    decreases |s|
  {
    if EndsWithSlash(s) {
      assert |s| > 1;
      TrimEndEnds(s[..|s| - 1]);
    }
  }

  lemma TrimmedFront(value: string)
    ensures !EndsWithSlash(Trim(value)) && (Single("/" + Trim(value)) <==> Single(Trim(value)))
  {
    TrimStartStarts(value);
    TrimEndEnds(TrimStart(value));
    SingleTogether("/", Trim(value));
  }

  /** The ReplacePrefixMatch case of SgHttpPathModifier::replace. */
  method ReplacePrefix(value: string, path: string, prefix: string) returns (r: Option<string>)
    ensures r.Some? <==> Matches(Segments(path), Segments(prefix))
    ensures r.Some? ==> Segments(r.value) == Segments(value) + Segments(path)[|Segments(prefix)|..]
    ensures r.Some? ==> r.value != "" && r.value[0] == '/'
    ensures r.Some? && |Segments(path)| > |Segments(prefix)| ==>
      (EndsWithSlash(r.value) <==> EndsWithSlash(path)) && (Single(r.value) <==> Single(Trim(value)))
    ensures r.Some? && |Segments(path)| == |Segments(prefix)| ==> r.value == "/" + TrimStart(value)
  {
    hide Segments, Trim, SameIgnoringCase, Single;
    var pathSegments := Segments(path);
    var prefixSegments := Segments(prefix);
    SegmentsAreSegments(path);
    var i := 0;
    while true
      invariant 0 <= i <= |pathSegments| && i <= |prefixSegments|
      invariant forall k :: 0 <= k < i ==> SameIgnoringCase(pathSegments[k], prefixSegments[k])
      decreases |pathSegments| - i
    {
      if i < |pathSegments| && i < |prefixSegments| {
        if !SameIgnoringCase(pathSegments[i], prefixSegments[i]) {
          Mismatch(pathSegments, prefixSegments, i);
          return None;
        }
        i := i + 1;
      } else if i == |pathSegments| && i == |prefixSegments| {
        var newPath := "/";
        newPath := newPath + TrimStart(value);
        ExactMatch(value);
        return Some(newPath);
      } else if i < |pathSegments| {
        var newPath := Rebuild(value, pathSegments[i..], EndsWithSlash(path));
        return Some(newPath);
      } else {
        return None;
      }
    }
  }

  lemma Mismatch(path: seq<string>, prefix: seq<string>, i: nat)
    requires i < |path| && i < |prefix| && !SameIgnoringCase(path[i], prefix[i])
    ensures !Matches(path, prefix)
  {
    if |prefix| <= |path| { assert path[..|prefix|][i] == path[i]; }
  }

  lemma ExactMatch(value: string)
    ensures Segments("/" + TrimStart(value)) == Segments(value)
  {
    TrimStartKeeps(value);
    SegmentsAtSlash("", TrimStart(value));
    EmptyHasNoSegments();
    assert "" + "/" + TrimStart(value) == "/" + TrimStart(value);
  }

  /** The value, then the remaining segments, then the slash the path ended with. */
  method Rebuild(value: string, rest: seq<string>, slash: bool) returns (newPath: string)
    requires rest != [] && forall k :: 0 <= k < |rest| ==> Segment(rest[k])
    ensures Segments(newPath) == Segments(value) + rest
    ensures newPath != "" && newPath[0] == '/'
    ensures EndsWithSlash(newPath) <==> slash
    ensures Single(newPath) <==> Single(Trim(value))
  {
    hide Segments, Trim, Single;
    newPath := "/";
    var replaceValue := Trim(value);
    newPath := newPath + replaceValue;
    ghost var front := newPath;
    ValueFront(value);
    TrimmedFront(value);
    if replaceValue != "" {
      newPath := newPath + "/";
    }
    SegmentsOfSegment(rest[0]);
    newPath := newPath + rest[0];
    if replaceValue != "" {
      SegmentsAtSlash(front, rest[0]);
      SingleThen(front, rest[0]);
    } else {
      SingleThen("", rest[0]);
      EmptyHasNoSegments();
      SegmentsAtSlash("", rest[0]);
      assert newPath == "" + "/" + rest[0];
    }
    for k := 1 to |rest|
      invariant Segments(newPath) == Segments(value) + rest[..k]
      invariant newPath != "" && newPath[0] == '/' && !EndsWithSlash(newPath)
      invariant Single(newPath) <==> Single(replaceValue)
    {
      SegmentsAtSlash(newPath, rest[k]);
      SingleThen(newPath, rest[k]);
      SegmentsOfSegment(rest[k]);
      assert newPath + "/" + rest[k] == newPath + ("/" + rest[k]);
      newPath := newPath + "/";
      newPath := newPath + rest[k];
    }
    assert rest[..|rest|] == rest;
    if slash {
      SegmentsAtSlash(newPath, "");
      EmptyHasNoSegments();
      SingleThenSlash(newPath);
      assert newPath + "/" + "" == newPath + "/";
      newPath := newPath + "/";
    }
  }

  lemma ValueFront(value: string)
    ensures Segments("/" + Trim(value)) == Segments(value)
    ensures Trim(value) == "" ==> Segments(value) == []
  {
    TrimKeeps(value);
    EmptyHasNoSegments();
    SegmentsAtSlash("", Trim(value));
    assert "" + "/" + Trim(value) == "/" + Trim(value);
  }

  /**
   Replacing a prefix and replacing it back restores the segments of the path, up to the ASCII case of
   the replaced part; the rest comes back exactly.
   */
  method ReplaceThereAndBack(value: string, path: string, prefix: string)
    returns (there: Option<string>, back: Option<string>)
    ensures there.Some? <==> Matches(Segments(path), Segments(prefix))
    ensures there.Some? ==>
      && back.Some?
      && SameSegments(Segments(back.value), Segments(path))
      && Segments(back.value)[|Segments(prefix)|..] == Segments(path)[|Segments(prefix)|..]
  {
    hide Segments, SameIgnoringCase;
    there := ReplacePrefix(value, path, prefix);
    back := None;
    if there.Some? {
      var a, b, c := Segments(value), Segments(prefix), Segments(path);
      SameAsItself(a);
      assert Segments(there.value)[..|a|] == a;
      back := ReplacePrefix(prefix, there.value, value);
      assert Segments(there.value)[|a|..] == c[|b|..];
      RestoredSegments(b, c);
    }
  }

  lemma SameAsItself(a: seq<string>)
    ensures SameSegments(a, a)
  {
  }

  lemma RestoredSegments(b: seq<string>, c: seq<string>)
    requires Matches(c, b)
    ensures SameSegments(b + c[|b|..], c) && (b + c[|b|..])[|b|..] == c[|b|..]
  {
    forall i | 0 <= i < |c| ensures SameIgnoringCase((b + c[|b|..])[i], c[i]) {
      if i < |b| { assert SameIgnoringCase(c[..|b|][i], b[i]); }
    }
  }
}
