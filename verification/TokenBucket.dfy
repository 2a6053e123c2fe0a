/**
 The token bucket script of the rate limiter: per tenant two Redis keys, tokens and last timestamp,
 written together with the same TTL.

 The script's numbers are integers (exact in Lua below 2^53); its two divisions are rounded up.
 */
module TokenBucket {
  import opened Numbers
  import opened Options

  const MIN_TTL_MS := 300000

  /** A Redis key: its value and the last instant at which it is readable. */
  datatype Key = Key(value: int, deadline: int)

  /** The two keys of a bucket. */
  datatype Keys = Keys(tokens: Option<Key>, ts: Option<Key>)

  /** One call of the script: ARGV and the clock. */
  datatype Check = Check(rate: int, burst: int, now: int, cost: int)

  datatype Reply = Reply(allowed: bool, tokens: int, waitMs: int)

  const EMPTY_KEYS := Keys(None, None)

  /** math.ceil(a / b). */
  function CeilDiv(a: int, b: int): (q: int)
    requires b > 0
    ensures (q - 1) * b < a <= q * b
  {
    -((-a) / b)
  }

  predicate Valid(c: Check) {
    c.rate > 0 && c.burst > 0 && c.cost > 0
  }

  /** math.ceil((burst_milli / rate) * 10), but at least five minutes. */
  function Ttl(c: Check): int
    requires Valid(c)
  {
    Max(MIN_TTL_MS, CeilDiv(c.burst * 1000 * 10, c.rate))
  }

  /** GET at `now`. */
  function Get(k: Option<Key>, now: int): Option<int> {
    if k.Some? && now <= k.value.deadline then Some(k.value.value) else None
  }

  /** The Lua script, run against the keys it shares with every other caller of this tenant. */
  class Script {
    var keys: Keys

    constructor ()
      ensures keys == EMPTY_KEYS
    {
      keys := EMPTY_KEYS;
    }

    method Eval(c: Check) returns (r: Reply)
      modifies this
      ensures (keys, r) == Expiring(old(keys), c)
      ensures Truthful(old(keys), c, keys, r)
    {
      ReplyIsTruthful(keys, c);
      if c.rate <= 0 || c.burst <= 0 || c.cost <= 0 {
        return Reply(false, 0, 1000);
      }
      var burstMilli := c.burst * 1000;
      var costMilli := c.cost * 1000;
      var stored := Get(keys.tokens, c.now);
      var tokens := if stored.Some? then stored.value else burstMilli;
      var lastTs := Get(keys.ts, c.now);
      var elapsed := Max(0, c.now - if lastTs.Some? then lastTs.value else c.now);
      tokens := Min(burstMilli, tokens + elapsed * c.rate);
      var ttl := Ttl(c);
      if tokens >= costMilli {
        tokens := tokens - costMilli;
        keys := Keys(Some(Key(tokens, c.now + ttl)), Some(Key(c.now, c.now + ttl)));
        return Reply(true, tokens, 0);
      } else {
        var waitMs := CeilDiv(costMilli - tokens, c.rate);
        keys := Keys(Some(Key(tokens, c.now + ttl)), Some(Key(c.now, c.now + ttl)));
        return Reply(false, tokens, waitMs);
      }
    }
  }

  // ---------------------------------------------------------------- the ideal bucket

  /** A bucket whose contents never expire: tokens in thousandths, as of instant ts. */
  datatype Pool = Pool(tokens: int, ts: int)

  /** Tokens at `now`; an untouched bucket is full. */
  function Level(p: Option<Pool>, c: Check): int {
    if p.None? then c.burst * 1000
    else Min(c.burst * 1000, p.value.tokens + Max(0, c.now - p.value.ts) * c.rate)
  }

  /** Take `cost` tokens if they are there. */
  function Ideal(p: Option<Pool>, c: Check): (Option<Pool>, Reply) {
    if !Valid(c) then (p, Reply(false, 0, 1000))
    else
      var level := Level(p, c);
      if level >= c.cost * 1000
      then (Some(Pool(level - c.cost * 1000, c.now)), Reply(true, level - c.cost * 1000, 0))
      else (Some(Pool(level, c.now)), Reply(false, level, CeilDiv(c.cost * 1000 - level, c.rate)))
  }

  function Expiring(k: Keys, c: Check): (Keys, Reply) {
    if !Valid(c) then (k, Reply(false, 0, 1000))
    else
      var tokens := if Get(k.tokens, c.now).Some? then k.tokens.value.value else c.burst * 1000;
      var ts := if Get(k.ts, c.now).Some? then k.ts.value.value else c.now;
      var (p, r) := Ideal(Some(Pool(tokens, ts)), c);
      (Keys(Some(Key(p.value.tokens, c.now + Ttl(c))), Some(Key(c.now, c.now + Ttl(c)))), r)
  }

  /**
   What a caller can rely on. A check that makes no sense is denied for a second and writes nothing. Any other
   reports the tokens it leaves behind, stored as of now and readable for at least five minutes and for ten
   full refills; if it is admitted there is no wait, and if it is denied the wait earns what is missing and one
   millisecond less would not.
   */
  ghost predicate Truthful(k: Keys, c: Check, k': Keys, r: Reply) {
    if c.rate <= 0 || c.burst <= 0 || c.cost <= 0 then k' == k && r == Reply(false, 0, 1000)
    else
      && k'.tokens.Some? && k'.ts.Some?
      && k'.tokens.value.value == r.tokens && k'.ts.value.value == c.now
      && k'.tokens.value.deadline == k'.ts.value.deadline
      && var ttl := k'.ts.value.deadline - c.now;
      && ttl >= 300_000 && ttl * c.rate >= 10 * (c.burst * 1000)
      && r.tokens <= c.burst * 1000
      && (if r.allowed then r.waitMs == 0
          else
            var missing := c.cost * 1000 - r.tokens;
            missing > 0 && (r.waitMs - 1) * c.rate < missing <= r.waitMs * c.rate)
  }

  lemma ReplyIsTruthful(k: Keys, c: Check)
    ensures Truthful(k, c, Expiring(k, c).0, Expiring(k, c).1)
  {
    if Valid(c) {
      var q := CeilDiv(c.burst * 1000 * 10, c.rate);
      assert q * c.rate >= c.burst * 10_000;
      Scale(c.rate, q, Ttl(c));
      assert c.rate * q == q * c.rate && c.rate * Ttl(c) == Ttl(c) * c.rate;
    }
  }

  // ---------------------------------------------------------------- runs

  function IdealRun(p: Option<Pool>, cs: seq<Check>): (r: (Option<Pool>, seq<Reply>))
    ensures |r.1| == |cs|
    decreases |cs|
  {
    if cs == [] then (p, [])
    else
      var (p', r) := Ideal(p, cs[0]);
      var (p'', rs) := IdealRun(p', cs[1..]);
      (p'', [r] + rs)
  }

  function ExpiringRun(k: Keys, cs: seq<Check>): (r: (Keys, seq<Reply>))
    ensures |r.1| == |cs|
    decreases |cs|
  {
    if cs == [] then (k, [])
    else
      var (k', r) := Expiring(k, cs[0]);
      var (k'', rs) := ExpiringRun(k', cs[1..]);
      (k'', [r] + rs)
  }

  /** Thousandths of tokens handed out by a run. */
  function Admitted(cs: seq<Check>, rs: seq<Reply>): int
    requires |cs| == |rs|
  {
    if cs == [] then 0
    else (if rs[0].allowed then cs[0].cost * 1000 else 0) + Admitted(cs[1..], rs[1..])
  }

  // ---------------------------------------------------------------- admission

  ghost predicate Sound(p: Option<Pool>) {
    p.Some? ==> p.value.tokens >= 0
  }

  lemma Scale(rate: int, a: int, b: int)
    requires rate > 0 && a <= b
    ensures rate * a <= rate * b
    ensures 0 <= a ==> 0 <= rate * a
  {
  }

  lemma Spread(rate: int, a: int, b: int)
    ensures rate * (a + b) == rate * a + rate * b
  {
  }

  /** One check conserves tokens: what it hands out and keeps was there or was earned since. */
  lemma IdealConserves(p: Option<Pool>, c: Check)
    requires Sound(p) && Valid(c)
    ensures var (p', r) := Ideal(p, c);
      && p'.Some? && p'.value.ts == c.now
      && 0 <= p'.value.tokens <= c.burst * 1000
      && (if r.allowed then c.cost * 1000 else 0) + p'.value.tokens == Level(p, c)
  {
    if p.Some? { Scale(c.rate, 0, Max(0, c.now - p.value.ts)); }
  }

  /** Rules in use stay below a rate and a burst. */
  ghost predicate Within(cs: seq<Check>, rate: int, burst: int) {
    rate > 0 && burst > 0 && forall c :: c in cs ==> c.rate <= rate && c.burst <= burst
  }

  lemma LevelBound(p: Pool, c: Check, rate: int)
    requires Valid(c) && c.rate <= rate
    ensures Level(Some(p), c) <= p.tokens + rate * Max(0, c.now - p.ts)
  {
    var d := Max(0, c.now - p.ts);
    assert d * c.rate <= d * rate;
  }

  lemma AdmittedStep(p: Option<Pool>, cs: seq<Check>)
    requires cs != []
    ensures var (p', r) := Ideal(p, cs[0]);
      Admitted(cs, IdealRun(p, cs).1)
        == (if r.allowed then cs[0].cost * 1000 else 0) + Admitted(cs[1..], IdealRun(p', cs[1..]).1)
  {
    var (p', r) := Ideal(p, cs[0]);
    var rest := IdealRun(p', cs[1..]).1;
    assert IdealRun(p, cs).1 == [r] + rest;
    assert ([r] + rest)[1..] == rest;
  }

  /** How far the clock moves forward over a run that starts at `from`. */
  function ForwardFrom(from: int, cs: seq<Check>): nat
    decreases |cs|
  {
    if cs == [] then 0 else Max(0, cs[0].now - from) + ForwardFrom(cs[0].now, cs[1..])
  }

  lemma {:induction false} ForwardTriangle(from: int, mid: int, cs: seq<Check>)
    ensures ForwardFrom(from, cs) <= Max(0, mid - from) + ForwardFrom(mid, cs)
  {
  }

  /**
   A run cannot hand out more than the tokens it starts with plus what the rate adds while the clock
   moves forward, even under rules that differ from check to check.
   */
  lemma {:induction false} SpendFromPool(p: Pool, cs: seq<Check>, rate: int, burst: int)
    requires p.tokens >= 0 && Within(cs, rate, burst)
    ensures Admitted(cs, IdealRun(Some(p), cs).1) <= p.tokens + rate * ForwardFrom(p.ts, cs)
    decreases |cs|
  {
    Scale(rate, 0, ForwardFrom(p.ts, cs));
    if cs != [] {
      var c := cs[0];
      var d := Max(0, c.now - p.ts);
      var (p', r) := Ideal(Some(p), c);
      AdmittedStep(Some(p), cs);
      if Valid(c) {
        IdealConserves(Some(p), c);
        LevelBound(p, c, rate);
        SpendFromPool(p'.value, cs[1..], rate, burst);
        Spread(rate, d, ForwardFrom(c.now, cs[1..]));
      } else {
        SpendFromPool(p, cs[1..], rate, burst);
        ForwardTriangle(p.ts, c.now, cs[1..]);
        Scale(rate, ForwardFrom(p.ts, cs[1..]), ForwardFrom(p.ts, cs));
      }
    }
  }

  /**
   Admission over any window of any run, whatever the bucket held before: at most a full burst plus the
   rate times the time the clock moved forward inside the window.
   */
  lemma {:induction false} WindowBound(p: Option<Pool>, cs: seq<Check>, rate: int, burst: int)
    requires Sound(p) && cs != [] && Within(cs, rate, burst)
    ensures Admitted(cs, IdealRun(p, cs).1) <= burst * 1000 + rate * ForwardFrom(cs[0].now, cs[1..])
    decreases |cs|
  {
    var c := cs[0];
    var (p', r) := Ideal(p, c);
    AdmittedStep(p, cs);
    Scale(rate, 0, ForwardFrom(c.now, cs[1..]));
    if Valid(c) {
      IdealConserves(p, c);
      SpendFromPool(p'.value, cs[1..], rate, burst);
    } else if |cs| > 1 {
      WindowBound(p, cs[1..], rate, burst);
      Scale(rate, ForwardFrom(cs[1].now, cs[2..]), ForwardFrom(c.now, cs[1..]));
      assert cs[1..][1..] == cs[2..];
    }
  }

  ghost predicate Monotone(cs: seq<Check>) {
    forall i, j :: 0 <= i <= j < |cs| ==> cs[i].now <= cs[j].now
  }

  lemma {:induction false} MonotoneForward(cs: seq<Check>)
    requires cs != [] && Monotone(cs)
    ensures ForwardFrom(cs[0].now, cs[1..]) == cs[|cs| - 1].now - cs[0].now
    decreases |cs|
  {
    if |cs| > 1 {
      MonotoneForward(cs[1..]);
      assert cs[1..][1..] == cs[2..];
    }
  }

  // ---------------------------------------------------------------- expiry

  /** If `c` wrote the keys, then once they have expired a bucket for `d` is full again anyway. */
  predicate Covers(c: Check, d: Check)
    requires Valid(c) && Valid(d)
  {
    (Ttl(c) + 1) * d.rate >= d.burst * 1000
  }

  /** The keys hold what the ideal bucket holds, as written by check `last`. */
  ghost predicate Mirrors(k: Keys, p: Option<Pool>, last: Option<Check>) {
    if last.None? then k == EMPTY_KEYS && p.None?
    else
      && Valid(last.value)
      && p.Some? && p.value.tokens >= 0 && p.value.ts == last.value.now
      && var deadline := p.value.ts + Ttl(last.value);
      k == Keys(Some(Key(p.value.tokens, deadline)), Some(Key(p.value.ts, deadline)))
  }

  lemma ExpiredMeansFull(p: Pool, last: Check, c: Check)
    requires Valid(last) && Valid(c) && p.tokens >= 0 && p.ts == last.now
    requires c.now > p.ts + Ttl(last) && Covers(last, c)
    ensures Level(Some(p), c) == c.burst * 1000
  {
    var d := c.now - p.ts;
    Scale(c.rate, Ttl(last) + 1, d);
    assert c.rate * d == d * c.rate;
    assert c.rate * (Ttl(last) + 1) == (Ttl(last) + 1) * c.rate;
  }

  lemma ExpiringMatchesIdeal(k: Keys, p: Option<Pool>, last: Option<Check>, c: Check)
    requires Mirrors(k, p, last)
    requires last.Some? && Valid(c) ==> Covers(last.value, c)
    ensures var (k', r) := Expiring(k, c); var (p', r') := Ideal(p, c);
      r == r' && Mirrors(k', p', if Valid(c) then Some(c) else last)
  {
    if Valid(c) {
      IdealConserves(p, c);
      if last.Some? && c.now > p.value.ts + Ttl(last.value) { ExpiredMeansFull(p.value, last.value, c); }
    }
  }

  /** Every check that reads the keys is covered by the one that wrote them. */
  ghost predicate Covered(last: Option<Check>, cs: seq<Check>)
    requires last.Some? ==> Valid(last.value)
    decreases |cs|
  {
    cs == [] ||
    (if Valid(cs[0]) then (last.Some? ==> Covers(last.value, cs[0])) && Covered(Some(cs[0]), cs[1..])
     else Covered(last, cs[1..]))
  }

  lemma {:induction false} ExpiryIsInvisibleFrom(k: Keys, p: Option<Pool>, last: Option<Check>, cs: seq<Check>)
    requires Mirrors(k, p, last) && Covered(last, cs)
    ensures ExpiringRun(k, cs).1 == IdealRun(p, cs).1
    decreases |cs|
  {
    if cs != [] {
      ExpiringMatchesIdeal(k, p, last, cs[0]);
      var writer := if Valid(cs[0]) then Some(cs[0]) else last;
      ExpiryIsInvisibleFrom(Expiring(k, cs[0]).0, Ideal(p, cs[0]).0, writer, cs[1..]);
    }
  }

  /** Keys that expire answer every run like keys that never do, on any clock, if the TTLs cover the refills. */
  lemma ExpiryIsInvisible(cs: seq<Check>)
    requires Covered(None, cs)
    ensures ExpiringRun(EMPTY_KEYS, cs).1 == IdealRun(None, cs).1
  {
    ExpiryIsInvisibleFrom(EMPTY_KEYS, None, None, cs);
  }

  ghost predicate SameRule(cs: seq<Check>, rate: int, burst: int) {
    forall c :: c in cs ==> c.rate == rate && c.burst == burst
  }

  lemma SameRuleCovers(c: Check, d: Check)
    requires Valid(c) && Valid(d) && c.rate == d.rate && c.burst == d.burst
    ensures Covers(c, d)
  {
    var q := CeilDiv(c.burst * 1000 * 10, c.rate);
    assert q * c.rate >= c.burst * 10000;
    Scale(c.rate, q, Ttl(c) + 1);
    assert c.rate * q == q * c.rate && c.rate * (Ttl(c) + 1) == (Ttl(c) + 1) * c.rate;
  }

  lemma {:induction false} SameRuleCovered(last: Option<Check>, cs: seq<Check>, rate: int, burst: int)
    requires SameRule(cs, rate, burst)
    requires last.Some? ==> Valid(last.value) && last.value.rate == rate && last.value.burst == burst
    ensures Covered(last, cs)
    decreases |cs|
  {
    if cs != [] {
      if Valid(cs[0]) {
        if last.Some? { SameRuleCovers(last.value, cs[0]); }
        SameRuleCovered(Some(cs[0]), cs[1..], rate, burst);
      } else {
        SameRuleCovered(last, cs[1..], rate, burst);
      }
    }
  }

  /** With one rate and burst the TTL is always long enough. */
  lemma OneRuleNeverShowsExpiry(cs: seq<Check>, rate: int, burst: int)
    requires SameRule(cs, rate, burst)
    ensures ExpiringRun(EMPTY_KEYS, cs).1 == IdealRun(None, cs).1
  {
    SameRuleCovered(None, cs, rate, burst);
    ExpiryIsInvisible(cs);
  }

  /**
   The condition is exact.  Where the TTL written by one rule does not cover the refill of another, two
   checks suffice to tell the keys from a bucket that keeps its contents: drain the bucket under the
   first rule, wait until the keys are gone, and ask for a full burst under the second.
   */
  lemma UncoveredExpiryShows(c: Check, d: Check)
    requires Valid(c) && Valid(d) && !Covers(c, d)
    requires c.cost == c.burst && d.cost == d.burst && d.now == c.now + Ttl(c) + 1
    ensures ExpiringRun(EMPTY_KEYS, [c, d]).1[1].allowed
    ensures !IdealRun(None, [c, d]).1[1].allowed
  {
    assert [c, d][1..] == [d] && [d][1..] == [];
    var (k, r) := Expiring(EMPTY_KEYS, c);
    var (p, r') := Ideal(None, c);
    assert p == Some(Pool(0, c.now));
    assert Get(k.tokens, d.now).None? && Get(k.ts, d.now).None?;
    assert Expiring(k, d).1.allowed;
    assert Level(p, d) == Min(d.burst * 1000, (Ttl(c) + 1) * d.rate);
    assert ExpiringRun(EMPTY_KEYS, [c, d]).1 == [r] + ExpiringRun(k, [d]).1;
    assert IdealRun(None, [c, d]).1 == [r'] + IdealRun(p, [d]).1;
  }

  // ---------------------------------------------------------------- the script

  lemma {:induction false} RunSplits(p: Option<Pool>, cs: seq<Check>, i: nat)
    requires i <= |cs| && Sound(p)
    ensures Sound(IdealRun(p, cs[..i]).0)
    ensures IdealRun(p, cs).1[i..] == IdealRun(IdealRun(p, cs[..i]).0, cs[i..]).1
    decreases i
  {
    if i > 0 {
      var (p', r) := Ideal(p, cs[0]);
      if Valid(cs[0]) { IdealConserves(p, cs[0]); }
      RunSplits(p', cs[1..], i - 1);
      assert cs[..i][1..] == cs[1..][..i - 1];
      assert cs[1..][i - 1..] == cs[i..];
      assert IdealRun(p, cs).1[i..] == IdealRun(p', cs[1..]).1[i - 1..];
    } else {
      assert cs[..0] == [] && cs[0..] == cs;
    }
  }

  lemma {:induction false} RunPrefix(p: Option<Pool>, cs: seq<Check>, j: nat)
    requires j <= |cs|
    ensures IdealRun(p, cs[..j]).1 == IdealRun(p, cs).1[..j]
    decreases |cs|
  {
    if j > 0 {
      var (p', r) := Ideal(p, cs[0]);
      RunPrefix(p', cs[1..], j - 1);
      assert cs[..j][1..] == cs[1..][..j - 1];
    }
  }

  /** The replies inside a window are those of a run that starts with what the bucket held before it. */
  lemma WindowIsARun(cs: seq<Check>, i: nat, j: nat) returns (p: Option<Pool>)
    requires i <= j <= |cs|
    ensures Sound(p) && IdealRun(None, cs).1[i..j] == IdealRun(p, cs[i..j]).1
  {
    RunPrefix(None, cs, j);
    RunSplits(None, cs[..j], i);
    p := IdealRun(None, cs[..j][..i]).0;
    assert cs[..j][i..] == cs[i..j];
  }

  /**
   For every run of the script with one rate and burst and a clock that does not go back, the tokens
   admitted by checks i..j (inclusive) are at most one burst plus the rate times the time between them.
   */
  lemma AdmissionBound(cs: seq<Check>, rs: seq<Reply>, rate: int, burst: int, i: nat, j: nat)
    requires rate > 0 && burst > 0 && SameRule(cs, rate, burst) && Monotone(cs)
    requires rs == ExpiringRun(EMPTY_KEYS, cs).1
    requires i <= j < |cs|
    ensures |rs| == |cs|
    ensures Admitted(cs[i..j + 1], rs[i..j + 1]) <= burst * 1000 + rate * (cs[j].now - cs[i].now)
  {
    hide *;
    IdealAdmissionBound(cs, rate, burst, i, j, cs[j].now - cs[i].now);
    OneRuleNeverShowsExpiry(cs, rate, burst);
  }

  lemma IdealAdmissionBound(cs: seq<Check>, rate: int, burst: int, i: nat, j: nat, gap: int)
    requires rate > 0 && burst > 0 && SameRule(cs, rate, burst) && Monotone(cs)
    requires i <= j < |cs| && gap == cs[j].now - cs[i].now
    ensures Admitted(cs[i..j + 1], IdealRun(None, cs).1[i..j + 1]) <= burst * 1000 + rate * gap
  {
    hide *;
    var p := WindowIsARun(cs, i, j + 1);
    WindowInherits(cs, rate, burst, i, j + 1);
    WindowGap(p, cs[i..j + 1], rate, burst, gap);
  }

  lemma WindowInherits(cs: seq<Check>, rate: int, burst: int, i: nat, j: nat)
    requires SameRule(cs, rate, burst) && Monotone(cs) && i <= j <= |cs|
    ensures SameRule(cs[i..j], rate, burst) && Monotone(cs[i..j])
  {
  }

  lemma WindowGap(p: Option<Pool>, cs: seq<Check>, rate: int, burst: int, gap: int)
    requires rate > 0 && burst > 0 && Sound(p) && cs != [] && SameRule(cs, rate, burst) && Monotone(cs)
    requires gap == cs[|cs| - 1].now - cs[0].now
    ensures Admitted(cs, IdealRun(p, cs).1) <= burst * 1000 + rate * gap
  {
    WindowBound(p, cs, rate, burst);
    MonotoneForward(cs);
  }

  /**
   The same for the rules of a tenant that differ from check to check, on any clock, as long as every TTL
   covers the refill of the next check: the largest rate and burst bound every window.
   */
  lemma {:induction false} SeveralRulesBound(cs: seq<Check>, rate: int, burst: int, i: nat, j: nat)
    requires Covered(None, cs) && Within(cs, rate, burst) && i <= j < |cs|
    ensures Admitted(cs[i..j + 1], ExpiringRun(EMPTY_KEYS, cs).1[i..j + 1])
              <= burst * 1000 + rate * ForwardFrom(cs[i].now, cs[i + 1..j + 1])
  {
    ExpiryIsInvisible(cs);
    var p := WindowIsARun(cs, i, j + 1);
    var window := cs[i..j + 1];
    hide Covered, ExpiringRun, IdealRun, Admitted, ForwardFrom;
    assert forall c :: c in window ==> c in cs;
    WindowBound(p, window, rate, burst);
    assert window[1..] == cs[i + 1..j + 1];
  }

  // ---------------------------------------------------------------- clocks that go back

  ghost predicate NeverBack(ts: seq<int>) {
    forall i, j :: 0 <= i <= j < |ts| ==> ts[i] <= ts[j]
  }

  /** Checks of one rule at these times, at any cost. */
  ghost predicate OnClock(cs: seq<Check>, ts: seq<int>, rate: int, burst: int) {
    |cs| == |ts| && forall i :: 0 <= i < |cs| ==> cs[i].now == ts[i] && cs[i].rate == rate && cs[i].burst == burst
  }

  /** Every window of the script's run admits at most one burst plus the rate times its length. */
  ghost predicate WithinBound(cs: seq<Check>, rate: int, burst: int) {
    forall i, j :: 0 <= i <= j < |cs| ==> WindowWithin(cs, rate, burst, i, j)
  }

  ghost predicate WindowWithin(cs: seq<Check>, rate: int, burst: int, i: nat, j: nat)
    requires i <= j < |cs|
  {
    Admitted(cs[i..j + 1], ExpiringRun(EMPTY_KEYS, cs).1[i..j + 1]) <= burst * 1000 + rate * (cs[j].now - cs[i].now)
  }

  /** An untouched or full bucket. */
  ghost predicate IsFull(p: Option<Pool>, burst: int) {
    p.Some? ==> p.value.tokens == burst * 1000
  }

  lemma FullLevel(p: Option<Pool>, c: Check)
    requires Valid(c) && IsFull(p, c.burst)
    ensures Level(p, c) == c.burst * 1000
  {
    if p.Some? { Scale(c.rate, 0, Max(0, c.now - p.value.ts)); }
  }

  /** Checks that ask for more than a burst leave a full bucket full. */
  lemma {:induction false} StaysFull(p: Option<Pool>, cs: seq<Check>, rate: int, burst: int)
    requires rate > 0 && burst > 0 && SameRule(cs, rate, burst) && IsFull(p, burst)
    requires forall c :: c in cs ==> c.cost == burst + 1
    ensures IsFull(IdealRun(p, cs).0, burst)
    decreases |cs|
  {
    if cs != [] {
      assert cs[0] in cs;
      FullLevel(p, cs[0]);
      StaysFull(Ideal(p, cs[0]).0, cs[1..], rate, burst);
    }
  }

  /** The costs that show a step back at check i: a burst there, and more than one everywhere else. */
  function Probe(ts: seq<int>, rate: int, burst: int, i: nat): seq<Check> {
    seq(|ts|, k requires 0 <= k < |ts| => Check(rate, burst, ts[k], if k == i then burst else burst + 1))
  }

  lemma ProbeIsAdmitted(ts: seq<int>, rate: int, burst: int, i: nat)
    requires rate > 0 && burst > 0 && i < |ts|
    ensures IdealRun(None, Probe(ts, rate, burst, i)).1[i].allowed
  {
    var cs := Probe(ts, rate, burst, i);
    StaysFull(None, cs[..i], rate, burst);
    RunSplits(None, cs, i);
    var p := IdealRun(None, cs[..i]).0;
    FullLevel(p, cs[i]);
    assert cs[i..][0] == cs[i];
    assert IdealRun(p, cs[i..]).1[0] == Ideal(p, cs[i]).1;
  }

  lemma FirstCounts(cs: seq<Check>, rs: seq<Reply>)
    requires |cs| == |rs| == 2 && rs[0].allowed && cs[1].cost > 0
    ensures Admitted(cs, rs) >= cs[0].cost * 1000
  {
    assert Admitted(cs[1..], rs[1..]) >= 0 by {
      assert Admitted(cs[1..][1..], rs[1..][1..]) == 0;
    }
  }

  /** Wherever the clock steps back, some costs break the bound. */
  lemma StepBackBreaks(ts: seq<int>, rate: int, burst: int, i: nat)
    requires rate > 0 && burst > 0 && i + 1 < |ts| && ts[i + 1] < ts[i]
    ensures OnClock(Probe(ts, rate, burst, i), ts, rate, burst)
    ensures !WindowWithin(Probe(ts, rate, burst, i), rate, burst, i, i + 1)
  {
    var cs := Probe(ts, rate, burst, i);
    ProbeIsAdmitted(ts, rate, burst, i);
    OneRuleNeverShowsExpiry(cs, rate, burst);
    var rs := ExpiringRun(EMPTY_KEYS, cs).1;
    hide ExpiringRun, IdealRun;
    FirstCounts(cs[i..i + 2], rs[i..i + 2]);
    Scale(rate, ts[i + 1] - ts[i], -1);
  }

  lemma {:induction false} FindStepBack(ts: seq<int>) returns (i: nat)
    requires !NeverBack(ts)
    ensures i + 1 < |ts| && ts[i + 1] < ts[i]
    decreases |ts|
  {
    var n := |ts| - 1;
    if NeverBack(ts[..n]) {
      i := n - 1;
      if n > 0 && ts[n - 1] <= ts[n] {
        forall a, b | 0 <= a <= b < |ts| ensures ts[a] <= ts[b] {
          if b < n { assert ts[..n][a] <= ts[..n][b]; }
          else if a < n { assert ts[..n][a] <= ts[..n][n - 1]; }
        }
      }
    } else {
      i := FindStepBack(ts[..n]);
    }
  }

  /**
   The exact condition: for every rule, the admission bound holds for all costs and all windows of a clock if
   and only if that clock never goes back.
   */
  lemma BoundIffNeverBack(ts: seq<int>, rate: int, burst: int)
    requires rate > 0 && burst > 0
    ensures (forall cs :: OnClock(cs, ts, rate, burst) ==> WithinBound(cs, rate, burst)) <==> NeverBack(ts)
  {
    if NeverBack(ts) {
      forall cs | OnClock(cs, ts, rate, burst) ensures WithinBound(cs, rate, burst) {
        ForwardClockBound(cs, ts, rate, burst);
      }
    } else {
      var i := FindStepBack(ts);
      StepBackBreaks(ts, rate, burst, i);
      hide WindowWithin;
      assert |Probe(ts, rate, burst, i)| == |ts|;
      assert !WithinBound(Probe(ts, rate, burst, i), rate, burst);
    }
  }

  lemma ForwardClockBound(cs: seq<Check>, ts: seq<int>, rate: int, burst: int)
    requires rate > 0 && burst > 0 && NeverBack(ts) && OnClock(cs, ts, rate, burst)
    ensures WithinBound(cs, rate, burst)
  {
    assert Monotone(cs) && SameRule(cs, rate, burst);
    hide Monotone, SameRule, ExpiringRun, Admitted;
    forall i, j | 0 <= i <= j < |cs| ensures WindowWithin(cs, rate, burst, i, j) {
      AdmissionBound(cs, ExpiringRun(EMPTY_KEYS, cs).1, rate, burst, i, j);
    }
  }

  /** The clock moves forward over a run by the time that passes exactly if it never goes back. */
  lemma {:induction false} ForwardIff(from: int, cs: seq<Check>)
    requires cs != []
    ensures ForwardFrom(from, cs) >= cs[|cs| - 1].now - from
    ensures ForwardFrom(from, cs) == cs[|cs| - 1].now - from <==> from <= cs[0].now && Monotone(cs)
    decreases |cs|
  {
    if |cs| > 1 {
      ForwardIff(cs[0].now, cs[1..]);
      MonotoneCons(cs);
    }
  }

  lemma MonotoneCons(cs: seq<Check>)
    requires |cs| > 1
    ensures Monotone(cs) <==> cs[0].now <= cs[1].now && Monotone(cs[1..])
  {
    if cs[0].now <= cs[1].now && Monotone(cs[1..]) {
      forall i, j | 0 <= i <= j < |cs| ensures cs[i].now <= cs[j].now {
        if i > 0 { assert cs[1..][i - 1].now <= cs[1..][j - 1].now; }
        else if j > 0 { assert cs[1..][0].now <= cs[1..][j - 1].now; }
      }
    }
    if Monotone(cs) {
      forall i, j | 0 <= i <= j < |cs[1..]| ensures cs[1..][i].now <= cs[1..][j].now {
        assert cs[i + 1].now <= cs[j + 1].now;
      }
    }
  }

  /** So the bound by forward movement is the bound by elapsed time exactly on clocks that do not go back. */
  lemma ForwardIsElapsedIff(cs: seq<Check>)
    requires |cs| > 1
    ensures ForwardFrom(cs[0].now, cs[1..]) == cs[|cs| - 1].now - cs[0].now <==> Monotone(cs)
  {
    ForwardIff(cs[0].now, cs[1..]);
    MonotoneCons(cs);
  }

  /** A clock that runs over the same span n times. */
  function Sawtooth(c: Check, span: nat, n: nat): seq<Check> {
    if n == 0 then [] else [c] + ([At(c, c.now + span)] + Sawtooth(c, span, n - 1))
  }

  lemma {:induction false} SawtoothStays(c: Check, span: nat, n: nat)
    ensures SameRule(Sawtooth(c, span, n), c.rate, c.burst)
    ensures forall d :: d in Sawtooth(c, span, n) ==> c.now <= d.now <= c.now + span
  {
    if n > 0 { SawtoothStays(c, span, n - 1); }
  }

  /** One turn refills what the turn before spent. */
  lemma {:induction false} TurnsEarn(c: Check, span: nat, n: nat)
    requires Valid(c) && c.cost == c.burst && span * c.rate >= c.burst * 1000
    ensures var cs := Sawtooth(c, span, n);
      Admitted(cs, IdealRun(Some(Pool(0, c.now + span)), cs).1) == n * (c.burst * 1000)
  {
    if n > 0 {
      var d, rest := At(c, c.now + span), Sawtooth(c, span, n - 1);
      TurnsEarn(c, span, n - 1);
      assert Ideal(Some(Pool(0, c.now + span)), c).0 == Some(Pool(0, c.now));
      assert !Ideal(Some(Pool(0, c.now + span)), c).1.allowed;
      assert Level(Some(Pool(0, c.now)), d) == c.burst * 1000;
      AdmittedCons(Some(Pool(0, c.now + span)), c, [d] + rest);
      AdmittedCons(Some(Pool(0, c.now)), d, rest);
      OneMore(n, c.burst * 1000);
    }
  }

  lemma OneMore(n: nat, x: int)
    requires n > 0
    ensures n * x == (n - 1) * x + x
  {
  }

  lemma AdmittedCons(p: Option<Pool>, c: Check, cs: seq<Check>)
    ensures var (p', r) := Ideal(p, c);
      Admitted([c] + cs, IdealRun(p, [c] + cs).1)
        == (if r.allowed then c.cost * 1000 else 0) + Admitted(cs, IdealRun(p', cs).1)
  {
    assert ([c] + cs)[1..] == cs && ([c] + cs)[0] == c;
    AdmittedStep(p, [c] + cs);
  }

  lemma IdealRewinds(c: Check, span: nat, n: nat)
    requires Valid(c) && c.cost == c.burst && span * c.rate >= c.burst * 1000 && n >= 1
    ensures var cs := Sawtooth(c, span, n); Admitted(cs, IdealRun(None, cs).1) == (n + 1) * (c.burst * 1000)
  {
    var d, rest := At(c, c.now + span), Sawtooth(c, span, n - 1);
    assert Ideal(None, c) == (Some(Pool(0, c.now)), Reply(true, 0, 0));
    assert Level(Some(Pool(0, c.now)), d) == c.burst * 1000;
    assert Ideal(Some(Pool(0, c.now)), d) == (Some(Pool(0, c.now + span)), Reply(true, 0, 0));
    TurnsEarn(c, span, n - 1);
    AdmittedCons(None, c, [d] + rest);
    AdmittedCons(Some(Pool(0, c.now)), d, rest);
    OneMore(n, c.burst * 1000);
    OneMore(n + 1, c.burst * 1000);
    hide Admitted, IdealRun, Ideal, Level;
  }

  /**
   A clock that goes back earns the same time again, without bound: for every rule, a clock that runs n times
   over one span long enough to refill the bucket is given n + 1 full bursts within that span.
   */
  lemma RewindEarnsAgain(c: Check, span: nat, n: nat)
    requires Valid(c) && c.cost == c.burst && span * c.rate >= c.burst * 1000 && n >= 1
    ensures var cs := Sawtooth(c, span, n);
      && (forall d :: d in cs ==> c.now <= d.now <= c.now + span)
      && Admitted(cs, ExpiringRun(EMPTY_KEYS, cs).1) == (n + 1) * (c.burst * 1000)
  {
    hide *;
    SawtoothStays(c, span, n);
    OneRuleNeverShowsExpiry(Sawtooth(c, span, n), c.rate, c.burst);
    IdealRewinds(c, span, n);
  }

  ghost predicate InRange(k: Keys, burst: int) {
    k.tokens.Some? ==> 0 <= k.tokens.value.value <= burst * 1000
  }

  lemma ExpiringStaysInRange(k: Keys, c: Check)
    requires InRange(k, c.burst)
    ensures InRange(Expiring(k, c).0, c.burst)
  {
    if Valid(c) {
      var tokens := if Get(k.tokens, c.now).Some? then k.tokens.value.value else c.burst * 1000;
      var ts := if Get(k.ts, c.now).Some? then k.ts.value.value else c.now;
      IdealConserves(Some(Pool(tokens, ts)), c);
    }
  }

  /** On any clock, the stored tokens stay between nothing and a full burst. */
  lemma {:induction false} StoredTokensInRange(k: Keys, cs: seq<Check>, rate: int, burst: int)
    requires SameRule(cs, rate, burst) && InRange(k, burst)
    ensures InRange(ExpiringRun(k, cs).0, burst)
    decreases |cs|
  {
    if cs != [] {
      ExpiringStaysInRange(k, cs[0]);
      StoredTokensInRange(Expiring(k, cs[0]).0, cs[1..], rate, burst);
    }
  }

  // ---------------------------------------------------------------- the retry hint

  /** The same request at another time. */
  function At(c: Check, t: int): Check {
    c.(now := t)
  }

  ghost predicate NonNegative(k: Keys) {
    k.tokens.Some? ==> k.tokens.value.value >= 0
  }

  /** What a check wrote is what an ideal bucket with the same contents holds after it. */
  lemma CheckWrites(k: Keys, c: Check) returns (p: Pool)
    requires NonNegative(k) && Valid(c)
    ensures var (k', r) := Expiring(k, c);
      && Mirrors(k', Some(p), Some(c))
      && (!r.allowed ==> r.waitMs == CeilDiv(c.cost * 1000 - p.tokens, c.rate) && p.tokens < c.cost * 1000)
  {
    var tokens := if Get(k.tokens, c.now).Some? then k.tokens.value.value else c.burst * 1000;
    var ts := if Get(k.ts, c.now).Some? then k.ts.value.value else c.now;
    IdealConserves(Some(Pool(tokens, ts)), c);
    p := Ideal(Some(Pool(tokens, ts)), c).0.value;
  }

  /**
   A denied check's hint is exact, whatever rules wrote the bucket before: with no other check on it, the same
   request is admitted from now + wait on, and at no earlier time, even after the keys expire.
   */
  lemma RetryHintIsExact(k: Keys, c: Check, t: int)
    requires NonNegative(k) && Valid(c) && c.cost <= c.burst && !Expiring(k, c).1.allowed
    ensures var (k', r) := Expiring(k, c);
      r.waitMs > 0 && (Expiring(k', At(c, t)).1.allowed <==> t >= c.now + r.waitMs)
  {
    var p := CheckWrites(k, c);
    var (k', r) := Expiring(k, c);
    SameRuleCovers(c, At(c, t));
    ExpiringMatchesIdeal(k', Some(p), Some(c), At(c, t));
    var need := c.cost * 1000 - p.tokens;
    assert (r.waitMs - 1) * c.rate < need <= r.waitMs * c.rate;
    EnoughIff(need, c.rate, r.waitMs, Max(0, t - c.now));
    EnoughIff(need, c.rate, r.waitMs, 0);
    hide Covers, Expiring, CeilDiv;
  }

  /** After any run, of any rules on any clock, the keys are such a bucket. */
  lemma {:induction false} StaysNonNegative(k: Keys, cs: seq<Check>)
    requires NonNegative(k)
    ensures NonNegative(ExpiringRun(k, cs).0)
    decreases |cs|
  {
    if cs != [] {
      if Valid(cs[0]) { var p := CheckWrites(k, cs[0]); }
      StaysNonNegative(Expiring(k, cs[0]).0, cs[1..]);
    }
  }

  /** A time earns enough exactly if it is at least the rounded-up one. */
  lemma EnoughIff(need: int, rate: int, wait: int, d: int)
    requires rate > 0 && (wait - 1) * rate < need <= wait * rate
    ensures d * rate >= need <==> d >= wait
  {
    if d >= wait { Scale(rate, wait, d); } else { Scale(rate, d, wait - 1); }
  }

  /** Asking again before that time changes nothing: every later denial names the same instant. */
  lemma PollingKeepsTheHint(k: Keys, c: Check, t: int)
    requires NonNegative(k) && Valid(c) && c.cost <= c.burst && !Expiring(k, c).1.allowed
    requires c.now <= t < c.now + Expiring(k, c).1.waitMs
    ensures var (k', r) := Expiring(k, c); var r' := Expiring(k', At(c, t)).1;
      !r'.allowed && t + r'.waitMs == c.now + r.waitMs
  {
    RetryHintIsExact(k, c, t);
    var p := CheckWrites(k, c);
    var k' := Expiring(k, c).0;
    SameRuleCovers(c, At(c, t));
    ExpiringMatchesIdeal(k', Some(p), Some(c), At(c, t));
    CeilDivShift(c.cost * 1000 - p.tokens, c.rate, t - c.now);
    hide Covers, Expiring, CeilDiv;
  }

  lemma CeilDivShift(a: int, b: int, n: int)
    requires b > 0
    ensures CeilDiv(a - n * b, b) == CeilDiv(a, b) - n
  {
    var q, q' := CeilDiv(a, b), CeilDiv(a - n * b, b);
    assert (q' - 1) * b < a - n * b <= q' * b;
    assert (q - n - 1) * b == (q - 1) * b - n * b && (q - n) * b == q * b - n * b;
    CeilUnique(a - n * b, b, q', q - n);
  }

  lemma CeilUnique(a: int, b: int, q: int, r: int)
    requires b > 0 && (q - 1) * b < a <= q * b && (r - 1) * b < a <= r * b
    ensures q == r
  {
    if q < r { Scale(b, q, r - 1); }
    if r < q { Scale(b, r, q - 1); }
  }

  /** A cost above the burst is never admitted, although the hint names a time. */
  lemma OversizedNeverAdmitted(k: Keys, c: Check)
    requires Valid(c) && c.cost > c.burst
    ensures !Expiring(k, c).1.allowed && Expiring(k, c).1.waitMs > 0
  {
  }
}
