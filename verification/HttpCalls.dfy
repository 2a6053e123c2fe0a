/**
 The outbound HTTP calls of one wasm VM: tokens, pending calls, the tasks that make the calls, and the queue
 of results. `issues`, `deliveries`, `drained` and `era` record the history; the host does not keep them.
 */
module HttpCalls {
  import opened Options

  const TWO_32: nat := 0x1_0000_0000

  /** The number of different tokens: every u32 but 0. */
  const TOKENS: nat := 0xFFFF_FFFF

  type Token = nat
  type ContextId = nat

  /** A call made while `era` requests had been started, by a hook running on `ctx`. */
  datatype Issue = Issue(token: Token, ctx: ContextId, era: nat)

  /** A result taken for `ctx` while `request` was being driven; its response hook is called if that can be prepared. */
  datatype Delivery = Delivery(token: Token, ctx: ContextId, request: ContextId, era: nat)

  datatype Calls = Calls(
    pending: map<Token, ContextId>,
    nextToken: Token,
    tasks: multiset<Token>,
    results: seq<Token>,
    issues: seq<Issue>,
    deliveries: seq<Delivery>,
    drained: multiset<Token>,
    era: nat)

  const IDLE := Calls(map[], 1, multiset{}, [], [], [], multiset{}, 0)

  // ---------------------------------------------------------------- steps

  /** wrapping_add(1).max(1) on u32. */
  function Following(token: Token): Token {
    var next := (token + 1) % TWO_32;
    if next < 1 then 1 else next
  }

  /** proxy_http_call: a token, a pending entry and a task. */
  function Issued(c: Calls, ctx: ContextId): Calls {
    c.(pending := c.pending[c.nextToken := ctx],
       nextToken := Following(c.nextToken),
       tasks := c.tasks + multiset{c.nextToken},
       issues := c.issues + [Issue(c.nextToken, ctx, c.era)])
  }

  /** A task ends, well or badly: it always sends one result. */
  function Arrived(c: Calls, token: Token): Calls
    requires token in c.tasks
  {
    c.(tasks := c.tasks - multiset{token}, results := c.results + [token])
  }

  /** The context the next result is delivered on while `request` is driven. */
  function Target(c: Calls, request: ContextId): ContextId
    requires c.results != []
  {
    if c.results[0] in c.pending then c.pending[c.results[0]] else request
  }

  /** One round of the drive loop takes the next result. */
  function Delivered(c: Calls, request: ContextId): Calls
    requires c.results != []
  {
    var token := c.results[0];
    c.(pending := c.pending - {token},
       results := c.results[1..],
       deliveries := c.deliveries + [Delivery(token, Target(c, request), request, c.era)])
  }

  /** A request starts: results already queued are thrown away and the pending calls forgotten. */
  function Started(c: Calls): Calls {
    c.(pending := map[], results := [], drained := c.drained + multiset(c.results), era := c.era + 1)
  }

  // ---------------------------------------------------------------- what every step keeps

  /** The token of call k, counted from 0. */
  function TokenAt(k: nat): Token {
    1 + k % TOKENS
  }

  function Outstanding(c: Calls): multiset<Token> {
    c.tasks + multiset(c.results)
  }

  ghost function Asked(issues: seq<Issue>): multiset<Token> {
    if issues == [] then multiset{}
    else Asked(issues[..|issues| - 1]) + multiset{issues[|issues| - 1].token}
  }

  ghost function Answered(deliveries: seq<Delivery>): multiset<Token> {
    if deliveries == [] then multiset{}
    else Answered(deliveries[..|deliveries| - 1]) + multiset{deliveries[|deliveries| - 1].token}
  }

  ghost predicate Numbered(c: Calls) {
    && c.nextToken == TokenAt(|c.issues|)
    && forall k :: 0 <= k < |c.issues| ==> c.issues[k].token == TokenAt(k) && c.issues[k].era <= c.era
  }

  /** Every call made has a task, a queued result, a delivery or a drained result: exactly one of them. */
  ghost predicate Conserved(c: Calls) {
    Outstanding(c) + Answered(c.deliveries) + c.drained == Asked(c.issues)
  }

  /** Whatever is pending is outstanding. */
  ghost predicate Awaited(c: Calls) {
    forall t :: t in c.pending ==> t in Outstanding(c)
  }

  /** The call with token t, while no token has been used twice. */
  ghost predicate IsCall(c: Calls, t: Token) {
    1 <= t <= |c.issues|
  }

  /** Token t is pending just when its call is outstanding and was made since the last request started. */
  ghost predicate CurrentAt(c: Calls, t: Token) {
    && (t in c.pending <==> t in Outstanding(c) && IsCall(c, t) && c.issues[t - 1].era == c.era)
    && (t in c.pending ==> c.pending[t] == c.issues[t - 1].ctx)
  }

  /** Pending are exactly the outstanding calls made since the last request started, with their contexts. */
  ghost predicate PendingIsCurrent(c: Calls) {
    forall t :: CurrentAt(c, t)
  }

  /** Where a call's response must be delivered. */
  ghost predicate Routed(c: Calls, d: Delivery) {
    && IsCall(c, d.token)
    && var call := c.issues[d.token - 1];
    && call.era <= d.era <= c.era
    && d.ctx == (if call.era == d.era then call.ctx else d.request)
  }

  ghost predicate AllRouted(c: Calls) {
    forall i :: 0 <= i < |c.deliveries| ==> Routed(c, c.deliveries[i])
  }

  ghost predicate Bounded(c: Calls, limit: Option<nat>) {
    limit.Some? ==> |c.pending| <= limit.value
  }

  ghost predicate Inv(c: Calls, limit: Option<nat>) {
    && Numbered(c) && Conserved(c) && Awaited(c) && Bounded(c, limit)
    && (|c.issues| <= TOKENS ==> PendingIsCurrent(c) && AllRouted(c))
  }

  // ---------------------------------------------------------------- tokens

  lemma FollowingToken(k: nat)
    ensures Following(TokenAt(k)) == TokenAt(k + 1)
  {
    var r := k % TOKENS;
    if r == TOKENS - 1 {
      assert k + 1 == (k / TOKENS + 1) * TOKENS;
    } else {
      assert k + 1 == (k / TOKENS) * TOKENS + (r + 1);
    }
  }

  lemma SmallToken(k: nat)
    requires k < TOKENS
    ensures TokenAt(k) == k + 1
  {
  }

  lemma AskedAppend(issues: seq<Issue>, i: Issue)
    ensures Asked(issues + [i]) == Asked(issues) + multiset{i.token}
  {
    assert (issues + [i])[..|issues|] == issues;
  }

  lemma AnsweredAppend(deliveries: seq<Delivery>, d: Delivery)
    ensures Answered(deliveries + [d]) == Answered(deliveries) + multiset{d.token}
  {
    assert (deliveries + [d])[..|deliveries|] == deliveries;
  }

  /** Until the tokens wrap around, every call has its own. */
  lemma {:induction false} AskedOnce(issues: seq<Issue>, t: Token)
    requires |issues| <= TOKENS
    requires forall k :: 0 <= k < |issues| ==> issues[k].token == TokenAt(k)
    ensures Asked(issues)[t] == if 1 <= t <= |issues| then 1 else 0
    decreases |issues|
  {
    if issues != [] {
      AskedOnce(issues[..|issues| - 1], t);
      SmallToken(|issues| - 1);
    }
  }

  lemma OutstandingOnce(c: Calls, t: Token)
    requires Numbered(c) && Conserved(c) && |c.issues| <= TOKENS
    ensures Outstanding(c)[t] + Answered(c.deliveries)[t] + c.drained[t] == if IsCall(c, t) then 1 else 0
  {
    AskedOnce(c.issues, t);
    hide Outstanding, Answered, Asked;
  }

  // ---------------------------------------------------------------- each step keeps Inv

  lemma Aside<T>(a: multiset<T>, b: multiset<T>, x: multiset<T>)
    ensures a + x + b == a + b + x
  {
  }

  lemma IssueNumbers(c: Calls, ctx: ContextId)
    requires Numbered(c)
    ensures Numbered(Issued(c, ctx))
  {
    FollowingToken(|c.issues|);
    hide Following, TokenAt;
  }

  lemma IssueCounts(c: Calls, ctx: ContextId)
    requires Conserved(c)
    ensures Conserved(Issued(c, ctx))
    ensures Outstanding(Issued(c, ctx)) == Outstanding(c) + multiset{c.nextToken}
  {
    var d, one, o := Issued(c, ctx), multiset{c.nextToken}, Outstanding(c);
    AskedAppend(c.issues, Issue(c.nextToken, ctx, c.era));
    Aside(c.tasks, multiset(c.results), one);
    assert Outstanding(d) == o + one;
    hide Following, Asked, Outstanding, Answered;
    Aside(o, Answered(c.deliveries), one);
    Aside(o + Answered(c.deliveries), c.drained, one);
  }

  lemma IssueIsCurrent(c: Calls, ctx: ContextId, t: Token)
    requires Numbered(c) && Conserved(c) && CurrentAt(c, t) && |c.issues| < TOKENS
    ensures CurrentAt(Issued(c, ctx), t)
  {
    IssueNumbers(c, ctx);
    IssueCounts(c, ctx);
    SmallToken(|c.issues|);
    hide Following, TokenAt, Outstanding, Conserved;
  }

  lemma StaysRouted(c: Calls, d: Calls, x: Delivery)
    requires Routed(c, x) && c.issues <= d.issues && c.era <= d.era
    ensures Routed(d, x)
  {
  }

  lemma AllStayRouted(c: Calls, d: Calls)
    requires AllRouted(c) && c.issues <= d.issues && c.era <= d.era && d.deliveries == c.deliveries
    ensures AllRouted(d)
  {
    hide Routed;
    forall i | 0 <= i < |d.deliveries| ensures Routed(d, d.deliveries[i]) { StaysRouted(c, d, c.deliveries[i]); }
  }

  lemma IssueKeeps(c: Calls, limit: Option<nat>, ctx: ContextId)
    requires Inv(c, limit)
    requires limit.Some? ==> |c.pending| < limit.value
    ensures Inv(Issued(c, ctx), limit)
  {
    IssueNumbers(c, ctx);
    IssueCounts(c, ctx);
    hide Following, TokenAt, Outstanding, Conserved, Numbered, AllRouted;
    var d := Issued(c, ctx);
    assert Bounded(d, limit);
    assert Awaited(d);
    if |d.issues| <= TOKENS {
      forall t ensures CurrentAt(d, t) { IssueIsCurrent(c, ctx, t); }
      AllStayRouted(c, d);
    }
  }

  lemma ArriveCounts(c: Calls, token: Token)
    requires token in c.tasks
    ensures Outstanding(Arrived(c, token)) == Outstanding(c)
  {
  }

  lemma ArriveKeeps(c: Calls, limit: Option<nat>, token: Token)
    requires Inv(c, limit) && token in c.tasks
    ensures Inv(Arrived(c, token), limit)
  {
    var d := Arrived(c, token);
    ArriveCounts(c, token);
    hide Outstanding, Asked, Answered, TokenAt, AllRouted;
    if |d.issues| <= TOKENS {
      forall t ensures CurrentAt(d, t) { assert CurrentAt(c, t); }
      AllStayRouted(c, d);
    }
  }

  lemma StartKeeps(c: Calls, limit: Option<nat>)
    requires Inv(c, limit)
    ensures Inv(Started(c), limit)
  {
    var d := Started(c);
    assert Outstanding(d) + d.drained == Outstanding(c) + c.drained;
    hide Outstanding, Asked, Answered, TokenAt, AllRouted;
    if |d.issues| <= TOKENS {
      AllStayRouted(c, d);
      forall t ensures CurrentAt(d, t) {
        if IsCall(c, t) { assert c.issues[t - 1].era <= c.era; }
      }
    }
  }

  lemma TakeFirst(c: Calls, request: ContextId)
    requires c.results != []
    ensures Outstanding(Delivered(c, request)) == Outstanding(c) - multiset{c.results[0]}
    ensures c.results[0] in Outstanding(c)
  {
    assert c.results == [c.results[0]] + c.results[1..];
  }

  lemma DeliverCounts(c: Calls, request: ContextId)
    requires c.results != [] && Numbered(c) && Conserved(c)
    ensures Numbered(Delivered(c, request)) && Conserved(Delivered(c, request))
  {
    TakeFirst(c, request);
    AnsweredAppend(c.deliveries, Delivery(c.results[0], Target(c, request), request, c.era));
    hide Outstanding, Answered, Asked, TokenAt;
  }

  lemma DeliverIsCurrent(c: Calls, request: ContextId, t: Token)
    requires c.results != [] && Numbered(c) && Conserved(c) && CurrentAt(c, t) && |c.issues| <= TOKENS
    ensures CurrentAt(Delivered(c, request), t)
  {
    TakeFirst(c, request);
    OutstandingOnce(c, c.results[0]);
    hide Outstanding, Answered, Conserved, Numbered, Target;
  }

  lemma DeliverRoutes(c: Calls, request: ContextId)
    requires c.results != [] && Numbered(c) && Conserved(c) && CurrentAt(c, c.results[0]) && |c.issues| <= TOKENS
    ensures Routed(Delivered(c, request), Delivery(c.results[0], Target(c, request), request, c.era))
  {
    TakeFirst(c, request);
    OutstandingOnce(c, c.results[0]);
    hide Outstanding, Answered, Conserved;
  }

  lemma DeliverKeeps(c: Calls, limit: Option<nat>, request: ContextId)
    requires Inv(c, limit) && c.results != []
    ensures Inv(Delivered(c, request), limit)
  {
    var d := Delivered(c, request);
    TakeFirst(c, request);
    DeliverCounts(c, request);
    Fewer(c.pending, c.results[0]);
    hide Outstanding, Conserved, Numbered, CurrentAt, Routed, Target;
    assert Bounded(d, limit) && Awaited(d);
    if |d.issues| <= TOKENS {
      forall t ensures CurrentAt(d, t) { DeliverIsCurrent(c, request, t); }
      DeliverRoutes(c, request);
      forall i | 0 <= i < |c.deliveries| ensures Routed(d, c.deliveries[i]) { StaysRouted(c, d, c.deliveries[i]); }
    }
  }

  lemma Fewer<K, V>(m: map<K, V>, k: K)
    ensures |m - {k}| <= |m|
  {
    assert m.Keys == (m - {k}).Keys + (m.Keys * {k});
  }

  // ---------------------------------------------------------------- whole runs

  /** What can happen: a hook makes a call, a task ends, a round of the drive loop, a request starts. */
  datatype Act =
    | Call(ctx: ContextId)
    | Result(token: Token)
    | Round(request: ContextId)
    | Start

  /**
   Acts that cannot happen change nothing: a call beyond the limit is refused, and the drive loop does not
   receive while nothing is pending.
   */
  function Step(c: Calls, limit: Option<nat>, e: Act): Calls {
    match e
    case Call(ctx) => if limit.Some? && |c.pending| >= limit.value then c else Issued(c, ctx)
    case Result(token) => if token in c.tasks then Arrived(c, token) else c
    case Round(request) => if c.pending != map[] && c.results != [] then Delivered(c, request) else c
    case Start => Started(c)
  }

  function Run(limit: Option<nat>, events: seq<Act>): Calls {
    if events == [] then IDLE else Step(Run(limit, events[..|events| - 1]), limit, events[|events| - 1])
  }

  lemma {:induction false} EveryRunKeeps(limit: Option<nat>, events: seq<Act>)
    ensures Inv(Run(limit, events), limit)
    decreases |events|
  {
    if events == [] {
      assert Outstanding(IDLE) == multiset{};
    } else {
      var c, e := Run(limit, events[..|events| - 1]), events[|events| - 1];
      EveryRunKeeps(limit, events[..|events| - 1]);
      StepKeeps(c, limit, e);
    }
  }

  lemma StepKeeps(c: Calls, limit: Option<nat>, e: Act)
    requires Inv(c, limit)
    ensures Inv(Step(c, limit, e), limit)
  {
    hide Inv;
    match e
    case Call(ctx) => if !(limit.Some? && |c.pending| >= limit.value) { IssueKeeps(c, limit, ctx); }
    case Result(token) => if token in c.tasks { ArriveKeeps(c, limit, token); }
    case Round(request) => if c.pending != map[] && c.results != [] { DeliverKeeps(c, limit, request); }
    case Start => StartKeeps(c, limit);
  }

  /** While anything is pending there is a task or a result to wait for, however many tokens were used. */
  lemma NeverStuck(limit: Option<nat>, events: seq<Act>)
    ensures var c := Run(limit, events);
      && (c.pending != map[] ==> c.results != [] || exists t :: t in c.tasks)
      && (limit.Some? ==> |c.pending| <= limit.value)
  {
    EveryRunKeeps(limit, events);
    hide Run;
    SomethingToAwait(Run(limit, events), limit);
  }

  lemma SomethingToAwait(c: Calls, limit: Option<nat>)
    requires Inv(c, limit)
    ensures c.pending != map[] ==> c.results != [] || exists t :: t in c.tasks
  {
    if c.pending != map[] && c.results == [] {
      var t :| t in c.pending;
      assert t in c.tasks;
    }
  }

  /** Before the tokens wrap around, each pending call has exactly one task or result and no token fires twice. */
  lemma TokensFireOnce(limit: Option<nat>, events: seq<Act>, t: Token, i: nat, j: nat)
    requires |Run(limit, events).issues| <= TOKENS
    ensures var c := Run(limit, events);
      && (t in c.pending ==> Outstanding(c)[t] == 1 && Answered(c.deliveries)[t] == 0)
      && (i < j < |c.deliveries| ==> c.deliveries[i].token != c.deliveries[j].token)
  {
    var c := Run(limit, events);
    EveryRunKeeps(limit, events);
    hide Run, Outstanding;
    OutstandingOnce(c, t);
    if i < j < |c.deliveries| && c.deliveries[i].token == c.deliveries[j].token {
      OutstandingOnce(c, c.deliveries[j].token);
      AnsweredTwice(c.deliveries, i, j);
    }
  }

  lemma {:induction false} AnsweredAt(deliveries: seq<Delivery>, i: nat)
    requires i < |deliveries|
    ensures Answered(deliveries)[deliveries[i].token] >= 1
    decreases |deliveries|
  {
    if i < |deliveries| - 1 { AnsweredAt(deliveries[..|deliveries| - 1], i); }
  }

  lemma {:induction false} AnsweredTwice(deliveries: seq<Delivery>, i: nat, j: nat)
    requires i < j < |deliveries| && deliveries[i].token == deliveries[j].token
    ensures Answered(deliveries)[deliveries[j].token] >= 2
    decreases |deliveries|
  {
    var front := deliveries[..|deliveries| - 1];
    if j < |deliveries| - 1 { AnsweredTwice(front, i, j); } else { AnsweredAt(front, i); }
  }

  /**
   A response reaches the context that made the call if no request started in between, and the context of
   the request being driven otherwise.
   */
  lemma ReachesIssuerIff(limit: Option<nat>, events: seq<Act>, i: nat)
    requires |Run(limit, events).issues| <= TOKENS && i < |Run(limit, events).deliveries|
    ensures var c := Run(limit, events); var d := c.deliveries[i];
      && IsCall(c, d.token)
      && var call := c.issues[d.token - 1];
      && call.token == d.token
      && (d.ctx == call.ctx <==> call.era == d.era || call.ctx == d.request)
      && (call.era != d.era ==> d.ctx == d.request)
  {
    EveryRunKeeps(limit, events);
    var c := Run(limit, events);
    hide Run;
    assert Routed(c, c.deliveries[i]);
    SmallToken(c.deliveries[i].token - 1);
  }

  // ---------------------------------------------------------------- results of earlier requests

  /** The oldest result answers a call made before the current request started. */
  ghost predicate Stale(c: Calls) {
    c.results != [] && IsCall(c, c.results[0]) && c.issues[c.results[0] - 1].era < c.era
  }

  /**
   A round hands a result of an earlier request, or of a tick, to the request being driven exactly when that
   request itself has something pending; otherwise nothing happens.
   */
  lemma StaleResultIff(c: Calls, limit: Option<nat>, request: ContextId)
    requires Inv(c, limit) && |c.issues| <= TOKENS && Stale(c)
    ensures var d := Step(c, limit, Round(request));
      && (c.pending != map[] <==> d.deliveries == c.deliveries + [Delivery(c.results[0], request, request, c.era)])
      && (c.pending == map[] <==> d == c)
  {
    hide Inv;
    var d := Step(c, limit, Round(request));
    assert CurrentAt(c, c.results[0]) by { AllCurrent(c, limit); }
    if c.pending != map[] {
      assert |d.deliveries| == |c.deliveries| + 1;
    }
  }

  lemma AllCurrent(c: Calls, limit: Option<nat>)
    requires Inv(c, limit) && |c.issues| <= TOKENS
    ensures PendingIsCurrent(c)
  {
  }

  /** The state after further acts. */
  function Onward(c: Calls, limit: Option<nat>, events: seq<Act>): Calls {
    if events == [] then c else Step(Onward(c, limit, events[..|events| - 1]), limit, events[|events| - 1])
  }

  /** A request that makes no call receives no result, whatever is in flight from before. */
  lemma {:induction false} QuietRequestHearsNothing(c: Calls, limit: Option<nat>, events: seq<Act>)
    requires forall e :: e in events ==> e.Result? || e.Round?
    ensures var d := Onward(Started(c), limit, events); d.deliveries == c.deliveries && d.pending == map[]
    decreases |events|
  {
    if events != [] {
      QuietRequestHearsNothing(c, limit, events[..|events| - 1]);
      assert events[|events| - 1] in events;
    }
  }

  /**
   From every state: a call still in flight when a request starts is answered on that request's context if
   the request makes a call of its own and the old result arrives first. Requests are not isolated from the
   calls of earlier ones, nor of ticks.
   */
  lemma LateResultReachesNextRequest(c: Calls, limit: Option<nat>, t: Token, request: ContextId)
    requires t in c.tasks && (limit.Some? ==> limit.value > 0)
    ensures var begun := Step(Step(c, limit, Start), limit, Call(request));
      Step(Step(begun, limit, Result(t)), limit, Round(request)).deliveries
        == c.deliveries + [Delivery(t, request, request, c.era + 1)]
  {
    hide Following;
    BegunRequest(c, limit, request);
    var begun := Issued(Started(c), request);
    hide Issued, Started;
    FirstResult(begun, limit, t, request);
  }

  /** A request that has made one call. */
  lemma BegunRequest(c: Calls, limit: Option<nat>, request: ContextId)
    requires limit.Some? ==> limit.value > 0
    ensures var begun := Issued(Started(c), request);
      && Step(Step(c, limit, Start), limit, Call(request)) == begun
      && begun.pending == map[c.nextToken := request] && begun.results == [] && c.tasks <= begun.tasks
      && begun.deliveries == c.deliveries && begun.era == c.era + 1
  {
    hide Following;
  }

  lemma FirstResult(c: Calls, limit: Option<nat>, t: Token, request: ContextId)
    requires t in c.tasks && c.results == [] && c.pending != map[]
    requires forall u :: u in c.pending ==> c.pending[u] == request
    ensures Step(Step(c, limit, Result(t)), limit, Round(request)).deliveries
      == c.deliveries + [Delivery(t, request, request, c.era)]
  {
    var late := Arrived(c, t);
    assert late.results == [t];
  }
}
