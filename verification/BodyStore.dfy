/**
 Storing a request body: inline while it is small, otherwise as a multipart upload that is cut into parts
 while the rest of the body is still being read.
 */
module BodyStore {
  import opened Octets

  const USIZE_MAX: nat := 0xFFFF_FFFF_FFFF_FFFF
  const MIN_PART_SIZE: nat := 5 * 1024 * 1024

  /** What the body stream yields: a chunk, or a read error. */
  datatype Item = Chunk(data: Bytes) | ReadError

  datatype Config = Config(maxBodyBytes: nat, inlineThreshold: nat, objectStore: bool, partSize: nat)

  datatype Error = BadRequest | TooLarge | Upstream

  datatype Result<T> = Ok(value: T) | Err(error: Error)

  /** Where a body went: inline in the queue entry, or to an upload that has read `taken` items so far. */
  datatype Location = Inline(body: Bytes) | Offload(pending: Bytes, taken: nat)

  datatype Part = Part(number: nat, data: Bytes)

  function PartSize(cfg: Config): (n: nat)
    ensures n >= MIN_PART_SIZE
  {
    if cfg.partSize >= MIN_PART_SIZE then cfg.partSize else MIN_PART_SIZE
  }

  // ---------------------------------------------------------------- bodies

  predicate Readable(items: seq<Item>) {
    forall i :: 0 <= i < |items| ==> items[i].Chunk?
  }

  /** The body a readable stream carries. */
  function Body(items: seq<Item>): Bytes {
    if items == [] then []
    else Body(items[..|items| - 1]) + if items[|items| - 1].Chunk? then items[|items| - 1].data else []
  }

  /** The first k items were read and what they carry still fits inline. */
  predicate Small(cfg: Config, items: seq<Item>, k: nat)
    requires k <= |items|
  {
    Readable(items[..k]) && |Body(items[..k])| <= cfg.maxBodyBytes && |Body(items[..k])| <= cfg.inlineThreshold
  }

  lemma BodyStep(items: seq<Item>, k: nat)
    requires k < |items|
    ensures Body(items[..k + 1]) == Body(items[..k]) + if items[k].Chunk? then items[k].data else []
    ensures Readable(items[..k + 1]) <==> Readable(items[..k]) && items[k].Chunk?
  {
    assert items[..k + 1][..k] == items[..k];
    assert forall i :: 0 <= i < k ==> items[..k + 1][i] == items[..k][i];
    assert items[..k + 1][k] == items[k];
  }

  lemma {:induction false} SmallBefore(cfg: Config, items: seq<Item>, k: nat, n: nat)
    requires k <= n <= |items| && Small(cfg, items, n)
    ensures Small(cfg, items, k)
    decreases n
  {
    if k < n {
      BodyStep(items, n - 1);
      SmallBefore(cfg, items, k, n - 1);
    }
  }

  /** What becomes of a body, in terms of the item at which it stops being small. */
  ghost predicate Placed(cfg: Config, items: seq<Item>, initiated: bool, r: Result<Location>) {
    if Small(cfg, items, |items|) then r == Ok(Inline(Body(items)))
    else exists k :: 0 < k <= |items| && Decisive(cfg, items, k) && r == Verdict(cfg, items, k, initiated)
  }

  /** Item k (counted from 1) is the first that makes the body too big to keep inline, or cannot be read. */
  ghost predicate Decisive(cfg: Config, items: seq<Item>, k: nat)
    requires 0 < k <= |items|
  {
    Small(cfg, items, k - 1) && !Small(cfg, items, k)
  }

  ghost function Verdict(cfg: Config, items: seq<Item>, k: nat, initiated: bool): Result<Location>
    requires 0 < k <= |items|
  {
    if items[k - 1].ReadError? then Err(BadRequest)
    else if |Body(items[..k])| > cfg.maxBodyBytes || !cfg.objectStore then Err(TooLarge)
    else if !initiated then Err(Upstream)
    else Ok(Offload(Body(items[..k]), k))
  }

  /** At the first item that is not small, the verdict is the placement. */
  lemma Decided(cfg: Config, items: seq<Item>, k: nat, initiated: bool)
    requires 0 < k <= |items| && Decisive(cfg, items, k)
    ensures Placed(cfg, items, initiated, Verdict(cfg, items, k, initiated))
  {
    hide Verdict;
    if Small(cfg, items, |items|) { SmallBefore(cfg, items, k, |items|); }
  }

  /** store_body, with `initiated` telling whether the object store opens the multipart upload. */
  method StoreBody(cfg: Config, items: seq<Item>, initiated: bool) returns (r: Result<Location>)
    requires cfg.maxBodyBytes <= USIZE_MAX
    ensures Placed(cfg, items, initiated, r)
  {
    hide Placed, Body;
    var pending: Bytes := [];
    var total := 0;
    EmptyStart(cfg, items);
    for i := 0 to |items|
      invariant Small(cfg, items, i)
      invariant pending == Body(items[..i]) && total == |pending|
    {
      BodyStep(items, i);
      if !Small(cfg, items, i + 1) { Decided(cfg, items, i + 1, initiated); }
      if items[i].ReadError? {
        return Err(BadRequest);
      }
      var chunk := items[i].data;
      if total + |chunk| > USIZE_MAX {
        return Err(TooLarge);
      }
      total := total + |chunk|;
      if total > cfg.maxBodyBytes {
        return Err(TooLarge);
      }
      if !cfg.objectStore && |pending| + |chunk| > cfg.inlineThreshold {
        return Err(TooLarge);
      }
      if cfg.objectStore && |pending| + |chunk| > cfg.inlineThreshold {
        pending := pending + chunk;
        if !initiated {
          return Err(Upstream);
        }
        return Ok(Offload(pending, i + 1));
      }
      pending := pending + chunk;
    }
    KeptInline(cfg, items, initiated);
    return Ok(Inline(pending));
  }

  lemma EmptyStart(cfg: Config, items: seq<Item>)
    ensures Body(items[..0]) == [] && Small(cfg, items, 0)
  {
  }

  lemma KeptInline(cfg: Config, items: seq<Item>, initiated: bool)
    requires Small(cfg, items, |items|)
    ensures Placed(cfg, items, initiated, Ok(Inline(Body(items[..|items|]))))
  {
    assert items[..|items|] == items;
  }

  // ---------------------------------------------------------------- parts

  /** A body cut into parts of the given size; only the last may be shorter. */
  function Cut(body: Bytes, size: nat): seq<Bytes>
    requires size > 0
    decreases |body|
  {
    if |body| <= size then [body] else [body[..size]] + Cut(body[size..], size)
  }

  function Concat(ds: seq<Bytes>): Bytes {
    if ds == [] then [] else ds[0] + Concat(ds[1..])
  }

  /** Cutting loses nothing, and the pieces have the sizes a multipart upload wants. */
  lemma {:induction false} CutIsExact(body: Bytes, size: nat)
    requires size > 0
    ensures var ds := Cut(body, size);
      && |ds| >= 1 && Concat(ds) == body
      && (forall i :: 0 <= i < |ds| - 1 ==> |ds[i]| == size)
      && |ds[|ds| - 1]| <= size
      && (body != [] ==> ds[|ds| - 1] != [])
    decreases |body|
  {
    if |body| > size {
      CutIsExact(body[size..], size);
      assert Cut(body, size)[1..] == Cut(body[size..], size);
    } else {
      assert Concat([body]) == body + Concat([]);
    }
  }

  function Data(parts: seq<Part>): (ds: seq<Bytes>)
    ensures |ds| == |parts|
  {
    if parts == [] then [] else Data(parts[..|parts| - 1]) + [parts[|parts| - 1].data]
  }

  /** Parts are numbered from 1 in the order they were sent. */
  ghost predicate Numbered(parts: seq<Part>) {
    forall i :: 0 <= i < |parts| ==> parts[i].number == i + 1
  }

  /** While uploading: full parts were sent for the front of the body, the rest is pending. */
  ghost predicate Sent(body: Bytes, parts: seq<Part>, pending: Bytes, size: nat) {
    && Numbered(parts)
    && (forall i :: 0 <= i < |parts| ==> |parts[i].data| == size)
    && Concat(Data(parts)) + pending == body
  }

  lemma {:induction false} ConcatAppend(ds: seq<Bytes>, d: Bytes)
    ensures Concat(ds + [d]) == Concat(ds) + d
  {
    if ds == [] {
      assert [d][1..] == [];
    } else {
      ConcatAppend(ds[1..], d);
      assert (ds + [d])[1..] == ds[1..] + [d];
    }
  }

  lemma DataAppend(parts: seq<Part>, p: Part)
    ensures Data(parts + [p]) == Data(parts) + [p.data]
    ensures Concat(Data(parts + [p])) == Concat(Data(parts)) + p.data
  {
    assert (parts + [p])[..|parts|] == parts;
    ConcatAppend(Data(parts), p.data);
  }

  /** Whole parts followed by a shorter rest are what cutting gives. */
  lemma {:induction false} CutOfPieces(ds: seq<Bytes>, rest: Bytes, size: nat)
    requires size > 0 && (forall i :: 0 <= i < |ds| ==> |ds[i]| == size) && |rest| <= size && (ds != [] ==> rest != [])
    ensures Cut(Concat(ds) + rest, size) == ds + [rest]
    decreases |ds|
  {
    if ds == [] {
      assert Concat(ds) + rest == rest;
    } else {
      CutOfPieces(ds[1..], rest, size);
      var body := Concat(ds) + rest;
      assert body[..size] == ds[0] && body[size..] == Concat(ds[1..]) + rest;
      assert ds + [rest] == [ds[0]] + (ds[1..] + [rest]);
    }
  }

  lemma {:induction false} CutOfWhole(ds: seq<Bytes>, size: nat)
    requires size > 0 && ds != [] && (forall i :: 0 <= i < |ds| ==> |ds[i]| == size)
    ensures Cut(Concat(ds), size) == ds
  {
    var n := |ds| - 1;
    CutOfPieces(ds[..n], ds[n], size);
    assert ds == ds[..n] + [ds[n]];
    ConcatAppend(ds[..n], ds[n]);
  }

  lemma {:induction false} DataAt(parts: seq<Part>, i: nat)
    requires i < |parts|
    ensures Data(parts)[i] == parts[i].data
    decreases |parts|
  {
    if i < |parts| - 1 { DataAt(parts[..|parts| - 1], i); }
  }

  /** Uploads of parts 1..n all succeed. */
  ghost predicate AllSent(partOk: nat -> bool, n: nat) {
    forall i :: 1 <= i <= n ==> partOk(i)
  }

  /** The inner loop: send full parts while there are any. */
  method Drain(ghost body: Bytes, pending0: Bytes, parts0: seq<Part>, size: nat, partOk: nat -> bool)
    returns (ok: bool, pending: Bytes, parts: seq<Part>)
    requires size > 0 && Sent(body, parts0, pending0, size) && AllSent(partOk, |parts0|)
    ensures parts0 <= parts && Sent(body, parts, pending, size) && AllSent(partOk, |parts|)
    ensures ok ==> |pending| < size
    ensures !ok ==> |pending| >= size && !partOk(|parts| + 1)
  {
    pending, parts := pending0, parts0;
    while |pending| >= size
      invariant parts0 <= parts && Sent(body, parts, pending, size) && AllSent(partOk, |parts|)
      decreases |pending|
    {
      var data := pending[..size];
      if !partOk(|parts| + 1) {
        return false, pending, parts;
      }
      var part := Part(|parts| + 1, data);
      DataAppend(parts, part);
      assert Concat(Data(parts)) + pending == (Concat(Data(parts)) + data) + pending[size..];
      parts := parts + [part];
      pending := pending[size..];
    }
    ok := true;
  }

  // ---------------------------------------------------------------- finishing an offload

  /** When an offload must succeed: everything can be read and fits, and the store takes every part of the body. */
  ghost predicate Finishes(cfg: Config, pending: Bytes, rest: seq<Item>, partOk: nat -> bool, completeOk: bool) {
    && Readable(rest) && |pending| + |Body(rest)| <= cfg.maxBodyBytes && completeOk
    && AllSent(partOk, |Cut(pending + Body(rest), PartSize(cfg))|)
  }

  /** How many full parts n bytes make. */
  function WholeParts(n: nat, size: nat): nat
    requires size > 0
  {
    n / size
  }

  /** The first k items of the rest were read and fit, and the store took all full parts of what was read. */
  ghost predicate GoodUntil(cfg: Config, pending: Bytes, rest: seq<Item>, partOk: nat -> bool, k: nat)
    requires k <= |rest|
  {
    && Readable(rest[..k]) && |pending| + |Body(rest[..k])| <= cfg.maxBodyBytes
    && AllSent(partOk, WholeParts(|pending| + |Body(rest[..k])|, PartSize(cfg)))
  }

  /** What is wrong with item k (counted from 1). */
  ghost function FaultAt(cfg: Config, pending: Bytes, rest: seq<Item>, k: nat): Error
    requires 0 < k <= |rest|
  {
    if rest[k - 1].ReadError? then BadRequest
    else if |pending| + |Body(rest[..k])| > cfg.maxBodyBytes then TooLarge
    else Upstream
  }

  /** The error of an offload, by the first thing that goes wrong. */
  ghost predicate Fault(cfg: Config, pending: Bytes, rest: seq<Item>, partOk: nat -> bool, completeOk: bool, e: Error) {
    || (!GoodUntil(cfg, pending, rest, partOk, 0) && e == Upstream)
    || (exists k :: 0 < k <= |rest| && FirstFault(cfg, pending, rest, partOk, k) && e == FaultAt(cfg, pending, rest, k))
    || (GoodUntil(cfg, pending, rest, partOk, |rest|) && !Finishes(cfg, pending, rest, partOk, completeOk)
        && e == Upstream)
  }

  ghost predicate FirstFault(cfg: Config, pending: Bytes, rest: seq<Item>, partOk: nat -> bool, k: nat)
    requires 0 < k <= |rest|
  {
    GoodUntil(cfg, pending, rest, partOk, k - 1) && !GoodUntil(cfg, pending, rest, partOk, k)
  }

  lemma WholePartsAre(n: nat, size: nat, q: nat, r: nat)
    requires size > 0 && n == q * size + r && r < size
    ensures WholeParts(n, size) == q
  {
    var p := n / size;
    assert p < q ==> (p + 1) * size <= q * size;
    assert q < p ==> (q + 1) * size <= p * size;
  }

  lemma WholePartsGrow(a: nat, b: nat, size: nat)
    requires a <= b && size > 0
    ensures WholeParts(a, size) <= WholeParts(b, size)
  {
    var q, p := a / size, b / size;
    assert p < q ==> (p + 1) * size <= q * size;
  }

  lemma OnePartMore(n: nat, size: nat)
    requires size > 0
    ensures WholeParts(n + size, size) == WholeParts(n, size) + 1
  {
    var q, r := n / size, n % size;
    assert n + size == (q + 1) * size + r;
    WholePartsAre(n + size, size, q + 1, r);
  }

  lemma {:induction false} GoodBefore(cfg: Config, pending: Bytes, rest: seq<Item>, partOk: nat -> bool, k: nat, n: nat)
    requires k <= n <= |rest| && GoodUntil(cfg, pending, rest, partOk, n)
    ensures GoodUntil(cfg, pending, rest, partOk, k)
    decreases n
  {
    if k < n {
      hide Body, PartSize, WholeParts;
      BodyStep(rest, n - 1);
      WholePartsGrow(|pending| + |Body(rest[..n - 1])|, |pending| + |Body(rest[..n])|, PartSize(cfg));
      GoodBefore(cfg, pending, rest, partOk, k, n - 1);
    }
  }

  /** An offload that fails has one error only. */
  lemma FaultIsUnique(cfg: Config, pending: Bytes, rest: seq<Item>, partOk: nat -> bool, completeOk: bool,
                      e: Error, f: Error)
    requires Fault(cfg, pending, rest, partOk, completeOk, e) && Fault(cfg, pending, rest, partOk, completeOk, f)
    ensures e == f
  {
    hide GoodUntil, FaultAt, Finishes;
    forall k, n | 0 <= k <= n <= |rest| && GoodUntil(cfg, pending, rest, partOk, n)
      ensures GoodUntil(cfg, pending, rest, partOk, k)
    {
      GoodBefore(cfg, pending, rest, partOk, k, n);
    }
  }

  lemma {:induction false} DataLength(parts: seq<Part>, size: nat)
    requires forall i :: 0 <= i < |parts| ==> |parts[i].data| == size
    ensures |Concat(Data(parts))| == |parts| * size
    decreases |parts|
  {
    if parts != [] {
      var n := |parts| - 1;
      DataLength(parts[..n], size);
      DataAppend(parts[..n], parts[n]);
      assert parts[..n] + [parts[n]] == parts;
      assert n * size + size == |parts| * size;
    }
  }

  /** All full parts of the body were sent. */
  lemma FullParts(body: Bytes, parts: seq<Part>, pending: Bytes, size: nat)
    requires size > 0 && Sent(body, parts, pending, size)
    ensures |pending| < size ==> WholeParts(|body|, size) == |parts|
    ensures |pending| >= size ==> WholeParts(|body|, size) >= |parts| + 1
  {
    DataLength(parts, size);
    hide WholeParts;
    var n := |parts|;
    assert |body| == n * size + |pending|;
    if |pending| < size {
      WholePartsAre(|body|, size, n, |pending|);
    } else {
      WholePartsAre(n * size, size, n, 0);
      OnePartMore(n * size, size);
      WholePartsGrow(n * size + size, |body|, size);
    }
  }

  /** The body of a prefix of a stream is a prefix of its body. */
  lemma {:induction false} BodyPrefix(items: seq<Item>, k: nat)
    requires k <= |items|
    ensures Body(items[..k]) <= Body(items)
    decreases |items| - k
  {
    if k < |items| {
      BodyPrefix(items, k + 1);
      BodyStep(items, k);
    } else {
      assert items[..k] == items;
    }
  }

  /** What has been sent, with the last short part, is the body cut into parts. */
  lemma SentIsCut(body: Bytes, parts: seq<Part>, pending: Bytes, size: nat)
    requires size > 0 && Sent(body, parts, pending, size) && |pending| < size
    ensures pending != [] || parts == [] ==>
      Data(parts + [Part(|parts| + 1, pending)]) == Cut(body, size) && Numbered(parts + [Part(|parts| + 1, pending)])
    ensures pending == [] && parts != [] ==> Data(parts) == Cut(body, size)
  {
    forall i | 0 <= i < |parts| ensures |Data(parts)[i]| == size { DataAt(parts, i); }
    DataAppend(parts, Part(|parts| + 1, pending));
    if pending != [] || parts == [] {
      CutOfPieces(Data(parts), pending, size);
    } else {
      assert Concat(Data(parts)) + pending == Concat(Data(parts));
      CutOfWhole(Data(parts), size);
    }
  }

  /** An offload that finishes was good all along. */
  lemma FinishesIsGood(cfg: Config, pending: Bytes, rest: seq<Item>, partOk: nat -> bool, completeOk: bool, k: nat)
    requires k <= |rest| && Finishes(cfg, pending, rest, partOk, completeOk)
    ensures GoodUntil(cfg, pending, rest, partOk, k)
  {
    var n := |rest|;
    assert rest[..n] == rest;
    CutLength(pending + Body(rest), PartSize(cfg));
    hide Body, PartSize, Cut, WholeParts;
    GoodBefore(cfg, pending, rest, partOk, k, n);
  }

  /** A body has at least as many parts as full ones. */
  lemma {:induction false} CutLength(body: Bytes, size: nat)
    requires size > 0
    ensures WholeParts(|body|, size) <= |Cut(body, size)|
    decreases |body|
  {
    hide WholeParts;
    if |body| > size {
      CutLength(body[size..], size);
      OnePartMore(|body| - size, size);
    } else {
      WholePartsGrow(|body|, size, size);
      WholePartsAre(size, size, 1, 0);
    }
  }

  /** The first item at which something is wrong decides the error. */
  lemma FaultHere(cfg: Config, pending: Bytes, rest: seq<Item>, partOk: nat -> bool, completeOk: bool, k: nat)
    requires 0 < k <= |rest| && FirstFault(cfg, pending, rest, partOk, k)
    ensures Fault(cfg, pending, rest, partOk, completeOk, FaultAt(cfg, pending, rest, k))
    ensures !Finishes(cfg, pending, rest, partOk, completeOk)
  {
    hide GoodUntil, FaultAt;
    if Finishes(cfg, pending, rest, partOk, completeOk) { FinishesIsGood(cfg, pending, rest, partOk, completeOk, k); }
  }

  lemma FaultAtOnce(cfg: Config, pending: Bytes, rest: seq<Item>, partOk: nat -> bool, completeOk: bool)
    requires !GoodUntil(cfg, pending, rest, partOk, 0)
    ensures Fault(cfg, pending, rest, partOk, completeOk, Upstream) && !Finishes(cfg, pending, rest, partOk, completeOk)
  {
    hide GoodUntil;
    if Finishes(cfg, pending, rest, partOk, completeOk) { FinishesIsGood(cfg, pending, rest, partOk, completeOk, 0); }
  }

  /**
   finish_offload_upload: sends the pending bytes and the rest of the stream as parts and completes the
   upload.  `partOk` tells which part uploads the store accepts, `completeOk` whether it accepts the
   completion; `aborts` counts abort requests.
   */
  method FinishOffload(cfg: Config, pending0: Bytes, rest: seq<Item>, partOk: nat -> bool, completeOk: bool)
    returns (r: Result<seq<Part>>, aborts: nat)
    requires |pending0| <= cfg.maxBodyBytes <= USIZE_MAX
    ensures r.Ok? <==> Finishes(cfg, pending0, rest, partOk, completeOk)
    ensures r.Ok? ==> Numbered(r.value) && Data(r.value) == Cut(pending0 + Body(rest), PartSize(cfg))
    ensures r.Err? ==> Fault(cfg, pending0, rest, partOk, completeOk, r.error)
    ensures r.Ok? <==> aborts == 0
    ensures r.Err? ==> aborts == 1 || (aborts == 2 && r.error == TooLarge)
    ensures r == Err(TooLarge) && |pending0| + |Body(rest)| <= USIZE_MAX ==> aborts == 2
  {
    hide Sent, AllSent, Data, Cut, Concat, Numbered, Finishes, PartSize, Fault, WholeParts;
    var size := PartSize(cfg);
    NothingSent(pending0, size, partOk);
    var sent, pending, parts := Drain(pending0, pending0, [], size, partOk);
    assert Body(rest[..0]) == [];
    assert pending0 + Body(rest[..0]) == pending0;
    hide Body;
    if !sent {
      Refused(pending0, parts, pending, size, partOk);
      FaultAtOnce(cfg, pending0, rest, partOk, completeOk);
      return Err(Upstream), 1;
    }
    Accepted(pending0, parts, pending, size, partOk);
    var total := |pending0|;
    for i := 0 to |rest|
      invariant total == |pending0| + |Body(rest[..i])| && GoodUntil(cfg, pending0, rest, partOk, i)
      invariant Sent(pending0 + Body(rest[..i]), parts, pending, size) && |pending| < size && AllSent(partOk, |parts|)
    {
      var error;
      sent, error, aborts, total, pending, parts := SendItem(cfg, pending0, rest, i, total, pending, parts, partOk);
      if !sent {
        FaultHere(cfg, pending0, rest, partOk, completeOk, i + 1);
        BodyPrefix(rest, i + 1);
        return Err(error), aborts;
      }
    }
    assert rest[..|rest|] == rest;
    AtTheEnd(cfg, pending0, rest, partOk, completeOk);
    r, aborts := SendLast(cfg, pending0, rest, pending, parts, partOk, completeOk);
  }

  /** One turn of the loop over the stream. */
  method SendItem(cfg: Config, ghost pending0: Bytes, rest: seq<Item>, i: nat, total0: nat, before: Bytes,
                  parts0: seq<Part>, partOk: nat -> bool)
    returns (sent: bool, error: Error, aborts: nat, total: nat, pending: Bytes, parts: seq<Part>)
    requires i < |rest| && cfg.maxBodyBytes <= USIZE_MAX
    requires total0 == |pending0| + |Body(rest[..i])| && GoodUntil(cfg, pending0, rest, partOk, i)
    requires Sent(pending0 + Body(rest[..i]), parts0, before, PartSize(cfg)) && AllSent(partOk, |parts0|)
    ensures sent ==>
      && total == |pending0| + |Body(rest[..i + 1])| && GoodUntil(cfg, pending0, rest, partOk, i + 1)
      && Sent(pending0 + Body(rest[..i + 1]), parts, pending, PartSize(cfg))
      && |pending| < PartSize(cfg) && AllSent(partOk, |parts|)
    ensures !sent ==>
      && FirstFault(cfg, pending0, rest, partOk, i + 1) && error == FaultAt(cfg, pending0, rest, i + 1)
      && (aborts == 1 || (aborts == 2 && error == TooLarge))
      && (error == TooLarge && |pending0| + |Body(rest[..i + 1])| <= USIZE_MAX ==> aborts == 2)
  {
    hide Sent, AllSent, Data, Cut, Concat, Numbered, PartSize, WholeParts, Body;
    BodyStep(rest, i);
    sent, error, aborts, total, pending, parts := false, BadRequest, 1, total0, before, parts0;
    if rest[i].ReadError? {
      return;
    }
    var chunk := rest[i].data;
    if total + |chunk| > USIZE_MAX {
      error := TooLarge;
      return;
    }
    total := total + |chunk|;
    if total > cfg.maxBodyBytes {
      // aborted here and once more on the way out
      error, aborts := TooLarge, 2;
      return;
    }
    ghost var body := pending0 + Body(rest[..i + 1]);
    SentMore(pending0 + Body(rest[..i]), parts, pending, PartSize(cfg), chunk);
    assert body == pending0 + Body(rest[..i]) + chunk;
    pending := pending + chunk;
    sent, pending, parts := Drain(body, pending, parts, PartSize(cfg), partOk);
    error := Upstream;
    if sent {
      Accepted(body, parts, pending, PartSize(cfg), partOk);
    } else {
      Refused(body, parts, pending, PartSize(cfg), partOk);
    }
  }

  lemma Refused(body: Bytes, parts: seq<Part>, pending: Bytes, size: nat, partOk: nat -> bool)
    requires size > 0 && Sent(body, parts, pending, size) && |pending| >= size && !partOk(|parts| + 1)
    ensures !AllSent(partOk, WholeParts(|body|, size))
  {
    hide WholeParts;
    FullParts(body, parts, pending, size);
  }

  lemma Accepted(body: Bytes, parts: seq<Part>, pending: Bytes, size: nat, partOk: nat -> bool)
    requires size > 0 && Sent(body, parts, pending, size) && |pending| < size && AllSent(partOk, |parts|)
    ensures AllSent(partOk, WholeParts(|body|, size))
  {
    hide WholeParts;
    FullParts(body, parts, pending, size);
  }

  /** After the last item only the last part and the completion can fail. */
  lemma AtTheEnd(cfg: Config, pending: Bytes, rest: seq<Item>, partOk: nat -> bool, completeOk: bool)
    requires GoodUntil(cfg, pending, rest, partOk, |rest|)
    ensures Finishes(cfg, pending, rest, partOk, completeOk) || Fault(cfg, pending, rest, partOk, completeOk, Upstream)
  {
  }

  lemma NothingSent(body: Bytes, size: nat, partOk: nat -> bool)
    ensures Sent(body, [], body, size) && AllSent(partOk, 0)
  {
  }

  lemma SentMore(body: Bytes, parts: seq<Part>, pending: Bytes, size: nat, chunk: Bytes)
    requires Sent(body, parts, pending, size)
    ensures Sent(body + chunk, parts, pending + chunk, size)
  {
    assert Concat(Data(parts)) + (pending + chunk) == body + chunk;
  }

  /** The end of the upload: a last short part, or an empty one if there is no other, and the completion. */
  method SendLast(cfg: Config, ghost pending0: Bytes, ghost rest: seq<Item>, pending: Bytes, parts0: seq<Part>,
                  partOk: nat -> bool, completeOk: bool)
    returns (r: Result<seq<Part>>, aborts: nat)
    requires Readable(rest) && |pending0| + |Body(rest)| <= cfg.maxBodyBytes
    requires Sent(pending0 + Body(rest), parts0, pending, PartSize(cfg)) && |pending| < PartSize(cfg)
    requires AllSent(partOk, |parts0|)
    ensures r.Ok? <==> Finishes(cfg, pending0, rest, partOk, completeOk)
    ensures r.Ok? ==> Numbered(r.value) && Data(r.value) == Cut(pending0 + Body(rest), PartSize(cfg))
    ensures r.Ok? <==> aborts == 0
    ensures r.Err? ==> r.error == Upstream && aborts == 1
  {
    hide Data, Cut, Concat;
    SentIsCut(pending0 + Body(rest), parts0, pending, PartSize(cfg));
    var parts := parts0;
    if pending != [] || parts == [] {
      if !partOk(|parts| + 1) {
        return Err(Upstream), 1;
      }
      parts := parts + [Part(|parts| + 1, pending)];
    }
    if !completeOk {
      return Err(Upstream), 1;
    }
    return Ok(parts), 0;
  }

  // ---------------------------------------------------------------- loading

  /** What the queue entry and the object store hold for a body. */
  datatype Stored = InlineBody(body: Bytes) | ObjectBody(parts: seq<Part>)

  /** The object made of parts, joined in the order of their numbers. */
  function Assemble(parts: seq<Part>, n: nat): Bytes
    requires n <= |parts|
  {
    if n == 0 then [] else Assemble(parts, n - 1) + DataOfNumber(parts, n)
  }

  /** The data of the first part with this number, if any. */
  function DataOfNumber(parts: seq<Part>, number: nat): Bytes {
    if parts == [] then [] else if parts[0].number == number then parts[0].data else DataOfNumber(parts[1..], number)
  }

  function LoadBody(st: Stored): Bytes {
    match st
    case InlineBody(b) => b
    case ObjectBody(parts) => Assemble(parts, |parts|)
  }

  lemma {:induction false} NumberedLookup(parts: seq<Part>, first: nat, i: nat)
    requires i < |parts| && forall k :: 0 <= k < |parts| ==> parts[k].number == first + k
    ensures DataOfNumber(parts, first + i) == parts[i].data
    decreases |parts|
  {
    if i > 0 { NumberedLookup(parts[1..], first + 1, i - 1); }
  }

  lemma {:induction false} AssembleIsConcat(parts: seq<Part>, n: nat)
    requires Numbered(parts) && n <= |parts|
    ensures Assemble(parts, n) == Concat(Data(parts[..n]))
  {
    if n > 0 {
      AssembleIsConcat(parts, n - 1);
      NumberedLookup(parts, 1, n - 1);
      DataAppend(parts[..n - 1], parts[n - 1]);
      assert parts[..n - 1] + [parts[n - 1]] == parts[..n];
    }
  }

  /**
   For every chunking of a body: whatever is stored loads as the original bytes.  An inline body is within
   both limits; an offloaded one consists of parts numbered 1..n, all but the last of exactly the part
   size, the last one not empty and no larger.
   */
  method StoreThenLoad(cfg: Config, items: seq<Item>, initiated: bool, partOk: nat -> bool, completeOk: bool)
    returns (r: Result<Stored>)
    requires cfg.maxBodyBytes <= USIZE_MAX
    ensures r.Ok? ==> Readable(items) && LoadBody(r.value) == Body(items) && |Body(items)| <= cfg.maxBodyBytes
    ensures r.Ok? && r.value.InlineBody? ==> |Body(items)| <= cfg.inlineThreshold
    ensures r.Ok? && r.value.ObjectBody? ==>
      var ps, size := r.value.parts, if cfg.partSize > 5_242_880 then cfg.partSize else 5_242_880;
      && |Body(items)| > cfg.inlineThreshold && |ps| >= 1 && Numbered(ps)
      && (forall i :: 0 <= i < |ps| - 1 ==> |ps[i].data| == size)
      && 0 < |ps[|ps| - 1].data| <= size
    ensures Readable(items) && |Body(items)| <= cfg.maxBodyBytes && |Body(items)| <= cfg.inlineThreshold ==>
      r == Ok(InlineBody(Body(items)))
    ensures r.Err? ==> Failure(cfg, items, initiated, partOk, completeOk, r.error)
  {
    hide Cut, Concat, Data, AllSent, Body, Assemble, Fault;
    assert items[..|items|] == items;
    var placed := StoreBody(cfg, items, initiated);
    if placed.Err? {
      PlacedError(cfg, items, initiated, partOk, completeOk, placed.error);
      return Err(placed.error);
    }
    if placed.value.Inline? {
      return Ok(InlineBody(placed.value.body));
    }
    var Offload(pending, k) := placed.value;
    PlacedOffload(cfg, items, initiated, pending, k);
    var finished, aborts := FinishOffload(cfg, pending, items[k..], partOk, completeOk);
    if finished.Err? {
      assert FailsAt(cfg, items, initiated, partOk, completeOk, finished.error, k);
      return Err(finished.error);
    }
    var parts := finished.value;
    LoadedParts(Body(items), parts, PartSize(cfg));
    return Ok(ObjectBody(parts));
  }

  /** Why a body is not stored: where it stops being small, or what goes wrong with the offload that starts there. */
  ghost predicate Failure(cfg: Config, items: seq<Item>, initiated: bool, partOk: nat -> bool, completeOk: bool,
                          e: Error)
  {
    exists k: nat :: FailsAt(cfg, items, initiated, partOk, completeOk, e, k)
  }

  ghost predicate FailsAt(cfg: Config, items: seq<Item>, initiated: bool, partOk: nat -> bool, completeOk: bool,
                          e: Error, k: nat)
  {
    && 0 < k <= |items| && Decisive(cfg, items, k)
    && match Verdict(cfg, items, k, initiated)
       case Err(f) => e == f
       case Ok(_) => Fault(cfg, Body(items[..k]), items[k..], partOk, completeOk, e)
  }

  lemma PlacedError(cfg: Config, items: seq<Item>, initiated: bool, partOk: nat -> bool, completeOk: bool, e: Error)
    requires Placed(cfg, items, initiated, Err(e))
    ensures Failure(cfg, items, initiated, partOk, completeOk, e)
  {
    hide Fault;
    var placed: Result<Location> := Err(e);
    var k :| 0 < k <= |items| && Decisive(cfg, items, k) && placed == Verdict(cfg, items, k, initiated);
    assert FailsAt(cfg, items, initiated, partOk, completeOk, e, k);
  }

  lemma PlacedOffload(cfg: Config, items: seq<Item>, initiated: bool, pending: Bytes, k: nat)
    requires Placed(cfg, items, initiated, Ok(Offload(pending, k)))
    ensures k <= |items| && Readable(items[..k]) && Body(items) == pending + Body(items[k..])
    ensures cfg.inlineThreshold < |pending| <= cfg.maxBodyBytes
    ensures Readable(items) <==> Readable(items[k..])
    ensures !Small(cfg, items, |items|)
    ensures 0 < k && Decisive(cfg, items, k) && pending == Body(items[..k])
    ensures Verdict(cfg, items, k, initiated) == Ok(Offload(pending, k))
  {
    hide Body, Readable;
    var placed := Ok(Offload(pending, k));
    var n :| 0 < n <= |items| && Decisive(cfg, items, n) && placed == Verdict(cfg, items, n, initiated);
    assert n == k && pending == Body(items[..k]);
    BodyStep(items, k - 1);
    BodySplit(items, k);
    ReadableSplit(items, k);
  }

  lemma LoadedParts(body: Bytes, parts: seq<Part>, size: nat)
    requires size > 0 && Numbered(parts) && Data(parts) == Cut(body, size) && body != []
    ensures LoadBody(ObjectBody(parts)) == body && |parts| >= 1
    ensures forall i :: 0 <= i < |parts| - 1 ==> |parts[i].data| == size
    ensures 0 < |parts[|parts| - 1].data| <= size
  {
    CutIsExact(body, size);
    AssembleIsConcat(parts, |parts|);
    assert parts[..|parts|] == parts;
    forall i | 0 <= i < |parts| ensures parts[i].data == Cut(body, size)[i] { DataAt(parts, i); }
  }

  lemma ReadableSplit(items: seq<Item>, k: nat)
    requires k <= |items|
    ensures Readable(items) <==> Readable(items[..k]) && Readable(items[k..])
  {
    if Readable(items[..k]) && Readable(items[k..]) {
      forall i | 0 <= i < |items| ensures items[i].Chunk? {
        assert if i < k then items[i] == items[..k][i] else items[i] == items[k..][i - k];
      }
    }
  }

  lemma {:induction false} BodySplit(items: seq<Item>, k: nat)
    requires k <= |items|
    ensures Body(items) == Body(items[..k]) + Body(items[k..])
    decreases |items|
  {
    var n := |items| - 1;
    if k == |items| {
      assert items[..k] == items && items[k..] == [];
    } else {
      BodySplit(items[..n], k);
      var pre, d := items[..n], if items[n].Chunk? then items[n].data else [];
      LastItem(items);
      LastItem(items[k..]);
      hide Body;
      assert pre[..k] == items[..k];
      assert items[k..][..n - k] == pre[k..];
      AppendAssociates(Body(pre[..k]), Body(pre[k..]), d);
    }
  }

  lemma LastItem(items: seq<Item>)
    requires items != []
    ensures var n := |items| - 1; Body(items) == Body(items[..n]) + if items[n].Chunk? then items[n].data else []
  {
    BodyStep(items, |items| - 1);
    assert items[..|items|] == items;
  }

  lemma AppendAssociates(a: Bytes, b: Bytes, c: Bytes)
    ensures a + b + c == a + (b + c)
  {
  }
}
