/**
 Retrying callbacks: a stream entry is posted when it is due, and before it is acknowledged it has been
 delivered, appended again (deferred, or as the next attempt) or moved to the callback dead-letter queue.
 */
module CallbackRetry {
  import opened Numbers
  import opened Options

  const U32_MAX: nat := 0xFFFF_FFFF
  const U64_MAX: int := 0xFFFF_FFFF_FFFF_FFFF
  const I64_SIZE: int := 0x8000_0000_0000_0000

  type U64 = x: int | 0 <= x <= U64_MAX
  type I64 = x: int | -I64_SIZE <= x < I64_SIZE
  type EntryId = nat
  type TaskId = nat
  type CallbackId = nat

  datatype Config = Config(maxAttempts: nat, initialDelayMs: U64, maxDelayMs: U64)

  /** u64::saturating_add and saturating_mul. */
  function SatAdd(a: nat, b: nat): U64 { Min(a + b, U64_MAX) }
  function SatMul(a: nat, b: nat): U64 { Min(a * b, U64_MAX) }

  function Pow2(n: nat): nat {
    if n == 0 then 1 else 2 * Pow2(n - 1)
  }

  /** callback_retry_delay_ms: exponential backoff; the exponent stops at 16. */
  function RetryDelay(cfg: Config, attempt: nat): nat {
    var exponent := Min(Max(attempt - 1, 0), 16);
    Min(SatMul(cfg.initialDelayMs, Pow2(exponent)), cfg.maxDelayMs)
  }

  /** A u64 written as i64 and read back with field_u64; a value that turned negative reads as absent, hence 0. */
  function WriteDue(due: U64): I64 {
    if due < I64_SIZE then due else due - 2 * I64_SIZE
  }

  function ReadDue(stored: I64): U64 {
    if stored >= 0 then stored else 0
  }

  /** The retry fields of a stream entry, as stored. */
  datatype Fields = Fields(callback: CallbackId, attempt: nat, due: I64)

  /** What process_callback_retry_entry does with an entry when the clock reads `now`. */
  datatype Plan =
    | Defer(again: Fields)
    | Post

  function PlanFor(f: Fields, now: nat): Plan {
    if ReadDue(f.due) > now then Defer(Fields(f.callback, f.attempt, WriteDue(ReadDue(f.due)))) else Post
  }

  /** After a failed post at captured time `now`: None sends the callback to the dead-letter queue. */
  function AfterFailure(cfg: Config, f: Fields, now: nat): Option<Fields> {
    if f.attempt >= cfg.maxAttempts then None
    else
      var next := Min(f.attempt + 1, U32_MAX);
      Some(Fields(f.callback, next, WriteDue(SatAdd(now, RetryDelay(cfg, next)))))
  }

  /** The first entry of a callback whose post failed at `now`. */
  function FirstRetry(cfg: Config, cb: CallbackId, now: nat): Fields {
    Fields(cb, 1, WriteDue(SatAdd(now, cfg.initialDelayMs)))
  }

  /** The first retry is due the whole initial delay after the failed post, whatever the cap. */
  lemma FirstRetryIsDue(cfg: Config, cb: CallbackId, now: nat)
    ensures var f := FirstRetry(cfg, cb, now);
      && f.callback == cb && f.attempt == 1
      && ReadDue(f.due) == if now + cfg.initialDelayMs < I64_SIZE then now + cfg.initialDelayMs else 0
  {
  }

  // ---------------------------------------------------------------- backoff

  lemma {:induction false} Pow2Grows(a: nat, b: nat)
    requires a <= b
    ensures 1 <= Pow2(a) <= Pow2(b)
    decreases b
  {
    if a < b { Pow2Grows(a, b - 1); } else if a > 0 { Pow2Grows(a - 1, a - 1); }
  }

  /** Delays never shrink from one attempt to the next, and never exceed the cap. */
  lemma DelaysGrow(cfg: Config, a: nat, b: nat)
    requires a <= b
    ensures RetryDelay(cfg, a) <= RetryDelay(cfg, b) <= cfg.maxDelayMs
  {
    hide Pow2;
    var x, y := Min(Max(a - 1, 0), 16), Min(Max(b - 1, 0), 16);
    Pow2Grows(x, y);
    ProductGrows(cfg.initialDelayMs, Pow2(x), Pow2(y));
  }

  /** The cap makes the saturation of the product invisible. */
  lemma DelayIsCappedProduct(cfg: Config, attempt: nat)
    ensures RetryDelay(cfg, attempt) == Min(cfg.initialDelayMs * Pow2(Min(Max(attempt - 1, 0), 16)), cfg.maxDelayMs)
  {
    hide Pow2;
  }

  lemma Doubled(x: nat, e: nat)
    ensures x * Pow2(e + 1) == 2 * (x * Pow2(e))
  {
  }

  /**
   Exponential backoff: the first delay is the initial one, each of the next sixteen is twice the one before,
   all below the cap, and from attempt 17 on the delay stays.
   */
  lemma DelaysDouble(cfg: Config, attempt: nat)
    ensures RetryDelay(cfg, 1) == Min(cfg.initialDelayMs, cfg.maxDelayMs)
    ensures 1 <= attempt <= 16 ==> RetryDelay(cfg, attempt + 1) == Min(2 * RetryDelay(cfg, attempt), cfg.maxDelayMs)
    ensures attempt >= 17 ==> RetryDelay(cfg, attempt) == RetryDelay(cfg, 17)
  {
    DelayIsCappedProduct(cfg, 1);
    assert Pow2(0) == 1;
    DelayIsCappedProduct(cfg, attempt);
    DelayIsCappedProduct(cfg, attempt + 1);
    DelayIsCappedProduct(cfg, 17);
    if 1 <= attempt <= 16 { Doubled(cfg.initialDelayMs, attempt - 1); }
    hide RetryDelay, Pow2;
  }

  lemma ProductGrows(k: nat, x: nat, y: nat)
    requires x <= y
    ensures k * x <= k * y
  {
  }

  /** A due time survives being stored exactly when it fits a signed 64-bit integer. */
  lemma DueSurvives(due: U64)
    ensures ReadDue(WriteDue(due)) == due <==> due < I64_SIZE
    ensures ReadDue(WriteDue(due)) <= due
  {
  }

  // ---------------------------------------------------------------- chains

  /** One entry of a chain and the time at which it was taken up. */
  datatype Link = Link(fields: Fields, at: nat)

  /** `next` is what handling `prev` appended: a deferral, or the next attempt after a failed post. */
  predicate Requeues(cfg: Config, prev: Link, next: Fields) {
    match PlanFor(prev.fields, prev.at)
    case Defer(again) => next == again
    case Post => AfterFailure(cfg, prev.fields, prev.at) == Some(next)
  }

  predicate Posts(l: Link) {
    PlanFor(l.fields, l.at).Post?
  }

  /** Entries of one callback, each appended by handling the one before. */
  ghost predicate Chain(cfg: Config, c: seq<Link>) {
    forall i :: 0 <= i < |c| - 1 ==> Requeues(cfg, c[i], c[i + 1].fields)
  }

  /** Each entry is taken up strictly later than the one before. */
  ghost predicate Advancing(c: seq<Link>) {
    forall i :: 0 <= i < |c| - 1 ==> c[i].at < c[i + 1].at
  }

  function PostCount(c: seq<Link>): nat {
    if c == [] then 0 else PostCount(c[..|c| - 1]) + if Posts(c[|c| - 1]) then 1 else 0
  }

  /**
   Along a chain that starts with attempt 1, every entry carries one more than the number of failed posts
   before it; so posts number at most max(1, callback_max_retry_attempts).
   */
  lemma {:induction false} AttemptsCountPosts(cfg: Config, c: seq<Link>)
    requires Chain(cfg, c) && c != [] && c[0].fields.attempt == 1 && cfg.maxAttempts <= U32_MAX
    ensures c[|c| - 1].fields.attempt == 1 + PostCount(c[..|c| - 1])
    ensures c[|c| - 1].fields.attempt <= Max(1, cfg.maxAttempts)
    ensures PostCount(c) <= Max(1, cfg.maxAttempts)
    ensures c[|c| - 1].fields.callback == c[0].fields.callback
    decreases |c|
  {
    hide Requeues, Posts;
    var n := |c| - 1;
    if n > 0 {
      AttemptsCountPosts(cfg, c[..n]);
      assert c[..n][..n - 1] == c[..n - 1];
      RequeueCounts(cfg, c[n - 1], c[n].fields);
    }
  }

  /** A failed post raises the attempt by exactly one, within the maximum; a deferral keeps it. */
  lemma RequeueCounts(cfg: Config, prev: Link, next: Fields)
    requires Requeues(cfg, prev, next) && cfg.maxAttempts <= U32_MAX
    ensures next.attempt == prev.fields.attempt + if Posts(prev) then 1 else 0
    ensures Posts(prev) ==> next.attempt <= cfg.maxAttempts
    ensures !Posts(prev) ==> ReadDue(next.due) == ReadDue(prev.fields.due)
    ensures next.callback == prev.fields.callback
  {
  }

  /** Upper bound on any single wait. */
  function LongestDelay(cfg: Config): nat {
    if cfg.initialDelayMs >= cfg.maxDelayMs then cfg.initialDelayMs else cfg.maxDelayMs
  }

  /** Attempts left, then time until due. */
  function Patience(cfg: Config, l: Link): nat {
    Max(0, cfg.maxAttempts - l.fields.attempt) * (LongestDelay(cfg) + 1) + Max(0, ReadDue(l.fields.due) - l.at)
  }

  lemma RequeueUsesPatience(cfg: Config, prev: Link, next: Link)
    requires Requeues(cfg, prev, next.fields) && prev.at < next.at && cfg.maxAttempts <= U32_MAX
    ensures Patience(cfg, next) < Patience(cfg, prev)
  {
    RequeueCounts(cfg, prev, next.fields);
    if Posts(prev) {
      RetryIsSoon(cfg, prev, next.fields);
      hide Requeues, Posts;
      OneLess(cfg.maxAttempts - prev.fields.attempt, LongestDelay(cfg) + 1);
    }
  }

  lemma OneLess(n: int, d: int)
    ensures n * d == (n - 1) * d + d
  {
  }

  /** The next attempt is due within the longest delay. */
  lemma RetryIsSoon(cfg: Config, prev: Link, next: Fields)
    requires Requeues(cfg, prev, next) && Posts(prev)
    ensures ReadDue(next.due) <= prev.at + LongestDelay(cfg)
    ensures prev.fields.attempt < cfg.maxAttempts
  {
    DelaysGrow(cfg, next.attempt, next.attempt);
  }

  /** Under an advancing clock no chain goes on for ever: its length is bounded by its first entry. */
  lemma {:induction false} ChainsEnd(cfg: Config, c: seq<Link>)
    requires Chain(cfg, c) && Advancing(c) && c != [] && cfg.maxAttempts <= U32_MAX
    ensures |c| + Patience(cfg, c[|c| - 1]) <= Patience(cfg, c[0]) + 1
    decreases |c|
  {
    var n := |c| - 1;
    if n > 0 {
      ChainsEnd(cfg, c[..n]);
      RequeueUsesPatience(cfg, c[n - 1], c[n]);
    }
  }

  /**
   After failed post number n the next attempt is due the initial delay, doubled n times but at most sixteen
   and never beyond the cap, after the time the failed one had read; a due time past 2^63 reads as 0.
   */
  lemma DelaysAlongChain(cfg: Config, prev: Link, next: Fields)
    requires Requeues(cfg, prev, next) && Posts(prev) && prev.fields.attempt >= 1 && cfg.maxAttempts <= U32_MAX
    ensures next.attempt == prev.fields.attempt + 1
    ensures var delay := Min(cfg.initialDelayMs * Pow2(Min(prev.fields.attempt, 16)), cfg.maxDelayMs);
      ReadDue(next.due) == if prev.at + delay < I64_SIZE then prev.at + delay else 0
    ensures RetryDelay(cfg, prev.fields.attempt) <= RetryDelay(cfg, next.attempt) <= cfg.maxDelayMs
  {
    DelaysGrow(cfg, prev.fields.attempt, next.attempt);
    DelayIsCappedProduct(cfg, next.attempt);
    hide Pow2, RetryDelay;
  }
}
