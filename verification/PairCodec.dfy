/**
 The header-pair encoding of proxy-wasm ABI v0.2.1 (little-endian count, then all sizes, then all keys and
 values, each followed by a NUL byte).
 */
module PairCodec {
  import opened Octets
  import opened Options

  type Pair = (Bytes, Bytes)

  const U32_SIZE: nat := 0x1_0000_0000

  /** `(n as u32).to_le_bytes()`. */
  function Le32(n: nat): (b: Bytes)
    ensures |b| == 4
  {
    [n % 256, n / 256 % 256, n / 256 / 256 % 256, n / 256 / 256 / 256 % 256]
  }

  /** u32::from_le_bytes at a position. */
  function U32At(b: Bytes, pos: nat): nat
    requires pos + 4 <= |b|
  {
    (b[pos] as int) + 256 * (b[pos + 1] as int) + 65536 * (b[pos + 2] as int) + 16777216 * (b[pos + 3] as int)
  }

  lemma Digits256(n: nat, q: nat, r: nat)
    requires n == 256 * q + r && r < 256
    ensures n % 256 == r && n / 256 == q
  {
  }

  /** The first byte counts least. */
  lemma Le32Reads(n: nat)
    requires n < U32_SIZE
    ensures var b := Le32(n);
      n == (b[0] as int) + 0x100 * (b[1] as int) + 0x1_0000 * (b[2] as int) + 0x100_0000 * (b[3] as int)
    ensures U32At(Le32(n), 0) == n
  {
    var r := n / 256;
    var r' := r / 256;
    assert n == 256 * r + n % 256 && r == 256 * r' + r % 256 && r' == 256 * (r' / 256) + r' % 256;
    assert r' / 256 < 256;
  }

  lemma Le32OfRead(b: Bytes, pos: nat)
    requires pos + 4 <= |b|
    ensures Le32(U32At(b, pos)) == b[pos..pos + 4] && U32At(b, pos) < U32_SIZE
  {
    var n2 := b[pos + 2] + 256 * (b[pos + 3] as int);
    var n1 := b[pos + 1] + 256 * n2;
    var n := U32At(b, pos);
    assert n == 256 * n1 + b[pos];
    Digits256(n, n1, b[pos]);
    Digits256(n1, n2, b[pos + 1]);
    Digits256(n2, b[pos + 3], b[pos + 2]);
  }

  // ---------------------------------------------------------------- the layout

  /** The declared number of pairs. */
  function Declared(b: Bytes): nat
    requires |b| >= 4
  {
    U32At(b, 0)
  }

  /** The declared sizes of key i and value i. */
  function KeySize(b: Bytes, i: nat): nat
    requires |b| >= 4 + 8 * (i + 1)
  {
    U32At(b, 4 + 8 * i)
  }

  function ValueSize(b: Bytes, i: nat): nat
    requires |b| >= 4 + 8 * (i + 1)
  {
    U32At(b, 8 + 8 * i)
  }

  /** Where pair i begins, by the declared sizes; Offset(b, count) is where the last one ends. */
  function Offset(b: Bytes, i: nat): nat
    requires |b| >= 4 && |b| >= 4 + 8 * Declared(b) && i <= Declared(b)
  {
    if i == 0 then 4 + 8 * Declared(b)
    else Offset(b, i - 1) + KeySize(b, i - 1) + 1 + ValueSize(b, i - 1) + 1
  }

  /** All that is declared is there. */
  predicate Fits(b: Bytes) {
    |b| >= 4 && |b| >= 4 + 8 * Declared(b) && Offset(b, Declared(b)) <= |b|
  }

  lemma {:induction false} OffsetsGrow(b: Bytes, i: nat, j: nat)
    requires |b| >= 4 && |b| >= 4 + 8 * Declared(b) && i <= j <= Declared(b)
    ensures Offset(b, i) <= Offset(b, j)
  {
    if i < j { OffsetsGrow(b, i, j - 1); }
  }

  function PairAt(b: Bytes, i: nat): Pair
    requires Fits(b) && i < Declared(b)
  {
    var pos := Offset(b, i);
    var k, v := KeySize(b, i), ValueSize(b, i);
    OffsetsGrow(b, i + 1, Declared(b));
    (b[pos..pos + k], b[pos + k + 1..pos + k + 1 + v])
  }

  function Pairs(b: Bytes): (ps: seq<Pair>)
    requires Fits(b)
    ensures |ps| == Declared(b)
  {
    seq(Declared(b), i requires 0 <= i < Declared(b) => PairAt(b, i))
  }

  /** The pairs a buffer denotes; an empty map may also be written as no bytes or a single NUL. */
  function Decode(b: Bytes): Option<seq<Pair>> {
    if b == [] || b == [0] then Some([])
    else if Fits(b) then Some(Pairs(b))
    else None
  }

  // ---------------------------------------------------------------- encoding

  function Sizes(ps: seq<Pair>): Bytes {
    if ps == [] then [] else Sizes(ps[..|ps| - 1]) + Le32(|ps[|ps| - 1].0|) + Le32(|ps[|ps| - 1].1|)
  }

  function Bodies(ps: seq<Pair>): Bytes {
    if ps == [] then [] else Bodies(ps[..|ps| - 1]) + (ps[|ps| - 1].0 + [0]) + (ps[|ps| - 1].1 + [0])
  }

  function Encode(ps: seq<Pair>): Bytes {
    Le32(|ps|) + Sizes(ps) + Bodies(ps)
  }

  lemma AppendPair(ps: seq<Pair>, i: nat)
    requires i < |ps|
    ensures Sizes(ps[..i + 1]) == Sizes(ps[..i]) + Le32(|ps[i].0|) + Le32(|ps[i].1|)
    ensures Bodies(ps[..i + 1]) == Bodies(ps[..i]) + (ps[i].0 + [0]) + (ps[i].1 + [0])
  {
    assert ps[..i + 1][..i] == ps[..i];
  }

  method EncodePairs(ps: seq<Pair>) returns (out: Bytes)
    ensures out == Encode(ps)
  {
    hide Le32, Sizes, Bodies;
    out := Le32(|ps|);
    assert ps[..0] == [] && ps[..|ps|] == ps;
    NothingYet();
    for i := 0 to |ps|
      invariant out == Le32(|ps|) + Sizes(ps[..i])
    {
      AppendPair(ps, i);
      out := out + Le32(|ps[i].0|);
      out := out + Le32(|ps[i].1|);
    }
    ghost var head := out;
    for i := 0 to |ps|
      invariant out == head + Bodies(ps[..i])
    {
      AppendPair(ps, i);
      out := out + ps[i].0;
      out := out + [0];
      out := out + ps[i].1;
      out := out + [0];
    }
  }

  lemma NothingYet()
    ensures Sizes([]) == [] && Bodies([]) == []
  {
  }

  method DecodePairs(b: Bytes) returns (r: Option<seq<Pair>>)
    ensures r == Decode(b)
  {
    if |b| == 0 {
      return Some([]);
    }
    if b == [0] {
      return Some([]);
    }
    if |b| < 4 {
      return None;
    }
    var pos := 0;
    var count := U32At(b, pos);
    pos := pos + 4;
    if |b| < 4 + count * 8 {
      return None;
    }
    hide U32At;
    var sizes: seq<(nat, nat)> := [];
    for i := 0 to count
      invariant pos == 4 + 8 * i
      invariant |sizes| == i
      invariant forall j :: 0 <= j < i ==> sizes[j] == (KeySize(b, j), ValueSize(b, j))
    {
      var k := U32At(b, pos);
      pos := pos + 4;
      var v := U32At(b, pos);
      pos := pos + 4;
      sizes := sizes + [(k, v)];
    }
    r := DecodeBodies(b, sizes);
  }

  /** The second half of decoding: cut keys and values out of the rest of the buffer. */
  method DecodeBodies(b: Bytes, sizes: seq<(nat, nat)>) returns (r: Option<seq<Pair>>)
    requires |b| >= 4 && |b| >= 4 + 8 * Declared(b) && |sizes| == Declared(b)
    requires forall j :: 0 <= j < |sizes| ==> sizes[j] == (KeySize(b, j), ValueSize(b, j))
    ensures r == if Fits(b) then Some(Pairs(b)) else None
  {
    hide U32At, Declared, KeySize, ValueSize, PairAt;
    var pos := 4 + 8 * |sizes|;
    var out: seq<Pair> := [];
    for i := 0 to |sizes|
      invariant pos == Offset(b, i) <= |b|
      invariant |out| == i
      invariant forall j :: 0 <= j < i ==> IsPairAt(b, j, out[j])
    {
      var (ks, vs) := sizes[i];
      if pos + ks + 1 + vs + 1 > |b| {
        OffsetsGrow(b, i + 1, |sizes|);
        return None;
      }
      var key := b[pos..pos + ks];
      pos := pos + ks + 1;
      var val := b[pos..pos + vs];
      pos := pos + vs + 1;
      out := out + [(key, val)];
    }
    PairsAre(b, out);
    return Some(out);
  }

  /** p is cut out of the buffer where the declared sizes put pair i. */
  ghost predicate IsPairAt(b: Bytes, i: nat, p: Pair)
    requires |b| >= 4 && |b| >= 4 + 8 * Declared(b) && i < Declared(b)
  {
    var pos := Offset(b, i);
    var k, v := KeySize(b, i), ValueSize(b, i);
    Offset(b, i + 1) <= |b| && p == (b[pos..pos + k], b[pos + k + 1..pos + k + 1 + v])
  }

  lemma PairsAre(b: Bytes, ps: seq<Pair>)
    requires Fits(b) && |ps| == Declared(b)
    requires forall i :: 0 <= i < |ps| ==> IsPairAt(b, i, ps[i])
    ensures ps == Pairs(b)
  {
    forall i | 0 <= i < |ps| ensures ps[i] == Pairs(b)[i] {
      assert IsPairAt(b, i, ps[i]);
    }
  }

  // ---------------------------------------------------------------- decoding what was encoded

  /** Counts and sizes that fit the wire. */
  ghost predicate Encodable(ps: seq<Pair>) {
    |ps| < U32_SIZE && forall i :: 0 <= i < |ps| ==> |ps[i].0| < U32_SIZE && |ps[i].1| < U32_SIZE
  }

  lemma ReadsLe32(b: Bytes, pos: nat, n: nat)
    requires pos + 4 <= |b| && b[pos..pos + 4] == Le32(n) && n < U32_SIZE
    ensures U32At(b, pos) == n
  {
    Le32Reads(n);
    var l := Le32(n);
    var c := b[pos..pos + 4];
    assert c[0] == b[pos] && c[1] == b[pos + 1] && c[2] == b[pos + 2] && c[3] == b[pos + 3];
    assert c[0] == l[0] && c[1] == l[1] && c[2] == l[2] && c[3] == l[3];
  }

  lemma {:induction false} SizesAt(ps: seq<Pair>, i: nat)
    requires i < |ps|
    ensures |Sizes(ps)| == 8 * |ps|
    ensures Sizes(ps)[8 * i..8 * i + 4] == Le32(|ps[i].0|) && Sizes(ps)[8 * i + 4..8 * i + 8] == Le32(|ps[i].1|)
    decreases |ps|
  {
    hide Le32;
    var n := |ps| - 1;
    SizesLength(ps[..n]);
    if i < n { SizesAt(ps[..n], i); }
    var front := Sizes(ps[..n]);
    assert Sizes(ps) == front + Le32(|ps[n].0|) + Le32(|ps[n].1|);
    if i < n {
      assert Sizes(ps)[8 * i..8 * i + 4] == front[8 * i..8 * i + 4];
      assert Sizes(ps)[8 * i + 4..8 * i + 8] == front[8 * i + 4..8 * i + 8];
    }
  }

  lemma {:induction false} SizesLength(ps: seq<Pair>)
    ensures |Sizes(ps)| == 8 * |ps|
    decreases |ps|
  {
    if ps != [] { SizesLength(ps[..|ps| - 1]); }
  }

  lemma {:induction false} BodiesPrefix(ps: seq<Pair>, i: nat)
    requires i <= |ps|
    ensures Bodies(ps[..i]) <= Bodies(ps)
    decreases |ps|
  {
    if i < |ps| {
      BodiesPrefix(ps[..|ps| - 1], i);
      assert ps[..|ps| - 1][..i] == ps[..i];
    } else {
      assert ps[..i] == ps;
    }
  }

  /** Where body i starts in an encoding. */
  function BodyStart(ps: seq<Pair>, i: nat): nat
    requires i <= |ps|
  {
    4 + 8 * |ps| + |Bodies(ps[..i])|
  }

  lemma Cut(front: Bytes, k: Bytes, v: Bytes, rest: Bytes)
    ensures var all := front + (k + [0]) + (v + [0]) + rest; var p := |front|;
      && all[p..p + |k|] == k && all[p + |k|] == 0
      && all[p + |k| + 1..p + |k| + 1 + |v|] == v && all[p + |k| + 1 + |v|] == 0
  {
  }

  lemma Regroup(a: Bytes, b: Bytes, c: Bytes, d: Bytes, e: Bytes)
    ensures a + (b + c + d + e) == (a + b) + c + d + e
  {
  }

  /** An encoding around its pair i. */
  lemma EncodeSplit(ps: seq<Pair>, i: nat) returns (front: Bytes, rest: Bytes)
    requires i < |ps|
    ensures |front| == BodyStart(ps, i)
    ensures BodyStart(ps, i + 1) == BodyStart(ps, i) + |ps[i].0| + 1 + |ps[i].1| + 1
    ensures Encode(ps) == front + (ps[i].0 + [0]) + (ps[i].1 + [0]) + rest
  {
    AppendPair(ps, i);
    BodiesPrefix(ps, i + 1);
    EncodeTail(ps);
    hide Le32, Bodies, Sizes, Encode;
    var e, base := Encode(ps), 4 + 8 * |ps|;
    var all := Bodies(ps[..i + 1]);
    rest := Bodies(ps)[|all|..];
    front := e[..base] + Bodies(ps[..i]);
    assert Bodies(ps) == all + rest;
    assert e == e[..base] + Bodies(ps);
    Regroup(e[..base], Bodies(ps[..i]), ps[i].0 + [0], ps[i].1 + [0], rest);
  }

  lemma BodyAt(ps: seq<Pair>, i: nat)
    requires i < |ps|
    ensures var e, pos, k, v := Encode(ps), BodyStart(ps, i), |ps[i].0|, |ps[i].1|;
      && BodyStart(ps, i + 1) == pos + k + 1 + v + 1 <= |e|
      && e[pos..pos + k] == ps[i].0 && e[pos + k] == 0
      && e[pos + k + 1..pos + k + 1 + v] == ps[i].1 && e[pos + k + 1 + v] == 0
  {
    hide *;
    var front, rest := EncodeSplit(ps, i);
    Cut(front, ps[i].0, ps[i].1, rest);
  }

  lemma EncodeTail(ps: seq<Pair>)
    ensures |Encode(ps)| == 4 + 8 * |ps| + |Bodies(ps)| && Encode(ps)[4 + 8 * |ps|..] == Bodies(ps)
    ensures Encode(ps)[4..4 + 8 * |ps|] == Sizes(ps) && Encode(ps)[..4] == Le32(|ps|)
  {
    SizesLength(ps);
  }

  /** The declared sizes of an encoding are the sizes of its pairs. */
  lemma HeaderOfEncoding(ps: seq<Pair>, i: nat)
    requires Encodable(ps) && i < |ps|
    ensures var e := Encode(ps);
      && |e| >= 4 + 8 * |ps| && Declared(e) == |ps|
      && KeySize(e, i) == |ps[i].0| && ValueSize(e, i) == |ps[i].1|
  {
    var e, n := Encode(ps), |ps|;
    EncodeTail(ps);
    SizesAt(ps, i);
    hide Le32, Sizes, Bodies, Encode;
    DeclaredOfEncoding(ps);
    var z := e[4..4 + 8 * n];
    assert e[4 + 8 * i..8 + 8 * i] == z[8 * i..8 * i + 4];
    assert e[8 + 8 * i..12 + 8 * i] == z[8 * i + 4..8 * i + 8];
    ReadsLe32(e, 4 + 8 * i, |ps[i].0|);
    ReadsLe32(e, 8 + 8 * i, |ps[i].1|);
  }

  lemma DeclaredOfEncoding(ps: seq<Pair>)
    requires Encodable(ps)
    ensures |Encode(ps)| >= 4 + 8 * |ps| && Declared(Encode(ps)) == |ps|
  {
    EncodeTail(ps);
    assert Encode(ps)[0..0 + 4] == Encode(ps)[..4];
    ReadsLe32(Encode(ps), 0, |ps|);
  }

  lemma {:induction false} OffsetOfEncoding(ps: seq<Pair>, i: nat)
    requires Encodable(ps) && i <= |ps|
    ensures |Encode(ps)| >= 4 + 8 * |ps| && Declared(Encode(ps)) == |ps| && Offset(Encode(ps), i) == BodyStart(ps, i)
  {
    DeclaredOfEncoding(ps);
    if i > 0 {
      OffsetOfEncoding(ps, i - 1);
      HeaderOfEncoding(ps, i - 1);
      BodyAt(ps, i - 1);
    } else {
      assert ps[..0] == [];
    }
  }

  lemma EncodingFits(ps: seq<Pair>)
    requires Encodable(ps)
    ensures Fits(Encode(ps)) && Declared(Encode(ps)) == |ps| && Offset(Encode(ps), |ps|) == |Encode(ps)|
  {
    OffsetOfEncoding(ps, |ps|);
    assert ps[..|ps|] == ps;
    EncodeTail(ps);
  }

  lemma PairOfEncoding(ps: seq<Pair>, i: nat)
    requires Encodable(ps) && i < |ps|
    ensures |Encode(ps)| >= 4 + 8 * |ps| && Declared(Encode(ps)) == |ps| && IsPairAt(Encode(ps), i, ps[i])
  {
    hide Encode, U32At, Declared, KeySize, ValueSize, Offset, BodyStart;
    OffsetOfEncoding(ps, i);
    OffsetOfEncoding(ps, i + 1);
    HeaderOfEncoding(ps, i);
    BodyAt(ps, i);
  }

  /** Decoding the encoding of any pair list whose counts and sizes fit the wire gives that list back. */
  lemma RoundTrip(ps: seq<Pair>)
    requires Encodable(ps)
    ensures Decode(Encode(ps)) == Some(ps)
  {
    hide Encode, U32At, Declared, Offset, Fits, Pairs, IsPairAt;
    EncodingFits(ps);
    forall i | 0 <= i < |ps| ensures IsPairAt(Encode(ps), i, ps[i]) { PairOfEncoding(ps, i); }
    PairsAre(Encode(ps), ps);
    EncodeTail(ps);
  }

  // ---------------------------------------------------------------- encoding what was decoded

  /** Both bytes that follow key i and value i are NUL. */
  predicate Terminated(b: Bytes, i: nat)
    requires Fits(b) && i < Declared(b)
  {
    OffsetsGrow(b, i + 1, Declared(b));
    b[Offset(b, i) + KeySize(b, i)] == 0 && b[Offset(b, i + 1) - 1] == 0
  }

  /** No byte is left over and every terminator is there; decoding checks neither. */
  predicate Canonical(b: Bytes)
    requires Fits(b)
  {
    Offset(b, Declared(b)) == |b| && forall i :: 0 <= i < Declared(b) ==> Terminated(b, i)
  }

  lemma PairsSizes(b: Bytes, i: nat)
    requires Fits(b) && i < Declared(b)
    ensures |Pairs(b)[i].0| == KeySize(b, i) && |Pairs(b)[i].1| == ValueSize(b, i)
  {
    OffsetsGrow(b, i + 1, Declared(b));
  }

  lemma PairsEncodable(b: Bytes)
    requires Fits(b)
    ensures Encodable(Pairs(b))
  {
    Le32OfRead(b, 0);
    hide U32At, PairAt;
    forall i | 0 <= i < Declared(b) ensures |Pairs(b)[i].0| < U32_SIZE && |Pairs(b)[i].1| < U32_SIZE {
      PairsSizes(b, i);
      Le32OfRead(b, 4 + 8 * i);
      Le32OfRead(b, 8 + 8 * i);
    }
  }

  lemma {:induction false} SizesOfDecoded(b: Bytes, i: nat)
    requires Fits(b) && i <= Declared(b)
    ensures Sizes(Pairs(b)[..i]) == b[4..4 + 8 * i]
  {
    hide U32At, Le32, Pairs, PairAt, Offset;
    if i > 0 {
      SizesOfDecoded(b, i - 1);
      AppendPair(Pairs(b), i - 1);
      PairsSizes(b, i - 1);
      Le32OfRead(b, 8 * i - 4);
      Le32OfRead(b, 8 * i);
      assert b[4..4 + 8 * i] == b[4..8 * i - 4] + b[8 * i - 4..8 * i] + b[8 * i..8 * i + 4];
    }
  }

  lemma PairIsCut(b: Bytes, i: nat)
    requires Fits(b) && i < Declared(b)
    ensures var p, m, q := Offset(b, i), Offset(b, i) + KeySize(b, i), Offset(b, i + 1);
      m < q - 1 && q <= |b| && Pairs(b)[i] == (b[p..m], b[m + 1..q - 1])
  {
    OffsetsGrow(b, i + 1, Declared(b));
  }

  lemma {:induction false} BodiesOfDecoded(b: Bytes, i: nat)
    requires Fits(b) && Canonical(b) && i <= Declared(b)
    ensures Offset(b, 0) <= Offset(b, i) <= |b| && Bodies(Pairs(b)[..i]) == b[Offset(b, 0)..Offset(b, i)]
  {
    hide U32At, Le32, Declared, Offset, Pairs, KeySize, ValueSize, Sizes;
    OffsetsGrow(b, 0, i);
    OffsetsGrow(b, i, Declared(b));
    if i > 0 {
      var j := i - 1;
      BodiesOfDecoded(b, j);
      AppendPair(Pairs(b), j);
      assert Terminated(b, j);
      PairIsCut(b, j);
      Stitch(b, Offset(b, 0), Offset(b, j), Offset(b, j) + KeySize(b, j), Offset(b, i), Pairs(b)[j]);
    }
  }

  lemma Stitch(b: Bytes, a: nat, p: nat, m: nat, q: nat, pair: Pair)
    requires a <= p <= m < q - 1 && q <= |b| && b[m] == 0 && b[q - 1] == 0
    requires pair == (b[p..m], b[m + 1..q - 1])
    ensures b[a..p] + (pair.0 + [0]) + (pair.1 + [0]) == b[a..q]
  {
    assert pair.0 + [0] == b[p..m + 1];
    assert pair.1 + [0] == b[m + 1..q];
    assert b[a..p] + b[p..m + 1] == b[a..m + 1];
  }

  lemma AllSizes(b: Bytes)
    requires Fits(b)
    ensures Sizes(Pairs(b)) == b[4..4 + 8 * Declared(b)]
  {
    SizesOfDecoded(b, Declared(b));
    hide *;
    assert Pairs(b)[..Declared(b)] == Pairs(b);
  }

  lemma AllBodies(b: Bytes)
    requires Fits(b) && Canonical(b)
    ensures Bodies(Pairs(b)) == b[4 + 8 * Declared(b)..]
  {
    BodiesOfDecoded(b, Declared(b));
    assert Offset(b, 0) == 4 + 8 * Declared(b) && Offset(b, Declared(b)) == |b|;
    hide *;
    assert Pairs(b)[..Declared(b)] == Pairs(b);
    assert b[Offset(b, 0)..Offset(b, Declared(b))] == b[4 + 8 * Declared(b)..];
  }

  lemma CanonicalReencodes(b: Bytes)
    requires Fits(b) && Canonical(b)
    ensures Encode(Pairs(b)) == b
  {
    var n := Declared(b);
    assert n == U32At(b, 0);
    assert |b| >= 4 + 8 * n;
    Le32OfRead(b, 0);
    AllSizes(b);
    AllBodies(b);
    hide Sizes, Bodies, Le32, U32At, Declared, Fits, Canonical, Pairs;
    InThree(b, 4, 4 + 8 * n);
  }

  lemma InThree(b: Bytes, i: nat, j: nat)
    requires i <= j <= |b|
    ensures b[0..i] + b[i..j] + b[j..] == b
  {
  }

  lemma EncodingTerminated(ps: seq<Pair>, i: nat)
    requires Encodable(ps) && i < |ps|
    ensures Fits(Encode(ps)) && Declared(Encode(ps)) == |ps| && Terminated(Encode(ps), i)
  {
    hide Encode, U32At, Declared, KeySize, ValueSize, Offset, Fits, BodyStart;
    EncodingFits(ps);
    OffsetOfEncoding(ps, i);
    OffsetOfEncoding(ps, i + 1);
    HeaderOfEncoding(ps, i);
    BodyAt(ps, i);
  }

  lemma EncodingIsCanonical(ps: seq<Pair>)
    requires Encodable(ps)
    ensures Fits(Encode(ps)) && Canonical(Encode(ps))
  {
    hide Encode, Declared, Offset, Fits, Terminated;
    EncodingFits(ps);
    forall i | 0 <= i < |ps| ensures Terminated(Encode(ps), i) { EncodingTerminated(ps, i); }
  }

  lemma FittingReencodesIff(b: Bytes)
    requires Fits(b)
    ensures Encode(Pairs(b)) == b <==> Canonical(b)
  {
    hide *;
    if Canonical(b) { CanonicalReencodes(b); }
    PairsEncodable(b);
    EncodingIsCanonical(Pairs(b));
  }

  /**
   Encoding what was decoded gives the buffer back exactly when the buffer is laid out in full, ends with its
   last pair, and all its terminators are NUL. The decoder accepts others too, among them the two short forms
   of an empty map: no byte, and one NUL.
   */
  lemma ReencodesIffCanonical(b: Bytes)
    requires Decode(b).Some?
    ensures Encode(Decode(b).value) == b <==> Fits(b) && Canonical(b)
  {
    if b == [] || b == [0] {
      assert |Encode([])| >= 4;
    } else {
      FittingReencodesIff(b);
    }
  }
}
